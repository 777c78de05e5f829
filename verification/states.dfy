/** The states page: which US states are active, the toggle that flips one, and the
    alphabetical grid of buttons. */
module States {
  import opened Wrappers
  import opened Seqs

  /** A state record from the server. */
  datatype State = State(id: string, name: string, active: bool)

  /** The body of the update request for one state. */
  datatype Payload = Payload(id: string, active: bool)

  /** One button of the grid. */
  datatype StateButton = StateButton(id: string, name: string, isActive: bool)

  /** Every state's id, in server order. */
  function StateIds(states: seq<State>): (r: seq<string>)
    ensures |r| == |states|
    ensures forall i :: 0 <= i < |states| ==> r[i] == states[i].id
  {
    seq(|states|, i requires 0 <= i < |states| => states[i].id)
  }

  /** The ids of the active states, in server order (the effect that seeds the local list). */
  function InitialActive(states: seq<State>): (ids: seq<string>)
    ensures |ids| <= |states|
    ensures forall id :: id in ids <==> exists i :: 0 <= i < |states| && states[i].active && states[i].id == id
    ensures Subseq(ids, StateIds(states))
  {
    if |states| == 0 then []
    else
      var rest := InitialActive(states[1..]);
      assert forall i :: 1 <= i < |states| ==> states[i] == states[1..][i - 1];
      assert StateIds(states)[1..] == StateIds(states[1..]);
      if states[0].active then [states[0].id] + rest else rest
  }

  /** Distinct server ids give a duplicate-free initial list. */
  lemma {:induction false} InitialActiveNoDup(states: seq<State>)
    requires forall i, j :: 0 <= i < j < |states| ==> states[i].id != states[j].id
    ensures NoDup(InitialActive(states))
  {
    if |states| > 0 {
      InitialActiveNoDup(states[1..]);
      var rest := InitialActive(states[1..]);
      if states[0].active {
        assert forall i :: 0 <= i < |states[1..]| ==> states[1..][i].id == states[i + 1].id != states[0].id;
        assert states[0].id !in rest;
        var r := [states[0].id] + rest;
        forall i, j | 0 <= i < j < |r| ensures r[i] != r[j] {
          if i == 0 {
            assert r[j] == rest[j - 1];
            assert rest[j - 1] in rest;
          } else {
            assert r[i] == rest[i - 1] && r[j] == rest[j - 1];
          }
        }
      }
    }
  }

  /** The local update of `toggleState`: a listed id is removed (every occurrence), an
      unlisted one is appended at the end. */
  function Toggle(ids: seq<string>, id: string): (r: seq<string>)
    ensures id in ids ==> id !in r && Subseq(r, ids)
    ensures id !in ids ==> r == ids + [id]
  {
    if id in ids then RemoveAll(ids, id) else ids + [id]
  }

  /** Toggling flips the membership of `id` and of nothing else. */
  lemma ToggleMembership(ids: seq<string>, id: string, x: string)
    ensures x in Toggle(ids, id) <==> (if x == id then id !in ids else x in ids)
  {
  }

  /** Toggling the same id twice restores every membership. */
  lemma ToggleTwice(ids: seq<string>, id: string, x: string)
    ensures x in Toggle(Toggle(ids, id), id) <==> x in ids
  {
    ToggleMembership(ids, id, x);
    ToggleMembership(Toggle(ids, id), id, x);
  }

  /** Toggling keeps the local list free of duplicates. */
  lemma ToggleNoDup(ids: seq<string>, id: string)
    requires NoDup(ids)
    ensures NoDup(Toggle(ids, id))
  {
    if id in ids {
      SubseqNoDup(Toggle(ids, id), ids);
    } else {
      var r := ids + [id];
      forall i, j | 0 <= i < j < |r| ensures r[i] != r[j] {
        if j == |ids| {
          assert r[i] in ids;
        }
      }
    }
  }

  /** The update request of `toggleState`: the negation of the server's flag, whatever the
      local list says. */
  function TogglePayload(state: State): (p: Payload)
    ensures p.id == state.id && p.active == !state.active
  {
    Payload(state.id, !state.active)
  }

  // ---------------------------------------------------------------------------------
  // Alphabetical order

  /** Code-point lexicographic order on names. */
  predicate NameLe(a: string, b: string)
    decreases |a|
  {
    if |a| == 0 then true
    else if |b| == 0 then false
    else if a[0] != b[0] then a[0] < b[0]
    else NameLe(a[1..], b[1..])
  }

  lemma {:induction false} NameLeTotal(a: string, b: string)
    ensures NameLe(a, b) || NameLe(b, a)
    decreases |a|
  {
    if |a| > 0 && |b| > 0 && a[0] == b[0] {
      NameLeTotal(a[1..], b[1..]);
    }
  }

  /** Each state's name is at most the next one's. */
  predicate SortedByName(s: seq<State>) {
    forall i :: 0 <= i < |s| - 1 ==> NameLe(s[i].name, s[i + 1].name)
  }

  /** Insert `x` into a sorted list before the first name it does not exceed. */
  function Insert(x: State, s: seq<State>): (r: seq<State>)
    requires SortedByName(s)
    ensures SortedByName(r)
    ensures multiset(r) == multiset(s) + multiset{x}
    ensures |r| > 0 && (r[0] == x || (|s| > 0 && r[0] == s[0]))
  {
    if |s| == 0 then [x]
    else if NameLe(x.name, s[0].name) then [x] + s
    else
      NameLeTotal(x.name, s[0].name);
      var rest := Insert(x, s[1..]);
      assert s == [s[0]] + s[1..];
      [s[0]] + rest
  }

  /** A sort by name: the same states, ordered by name. */
  function SortByName(s: seq<State>): (r: seq<State>)
    ensures SortedByName(r)
    ensures multiset(r) == multiset(s)
    ensures |r| == |s|
  {
    if |s| == 0 then []
    else
      assert s == [s[0]] + s[1..];
      Insert(s[0], SortByName(s[1..]))
  }

  /** `[...states]?.sort(...)` as written: spreading `states` while the query has no data
      yet throws, so the page fails on the render before the data arrives (`None`). */
  function SortedStatesAsWritten(states: Option<seq<State>>): (r: Option<seq<State>>)
    ensures states.None? <==> r.None?
    ensures r.Some? ==> SortedByName(r.value) && multiset(r.value) == multiset(states.value)
  {
    match states
    case None => None
    case Some(s) => Some(SortByName(s))
  }

  /** The failing input: the first render, before the query has any data. */
  lemma SortedStatesAsWrittenFailsWhileLoading()
    ensures SortedStatesAsWritten(None).None?
  {
  }

  /** `sortedStates` as intended: a missing list sorts as the empty one, so every render
      has a grid. */
  function SortedStates(states: Option<seq<State>>): (r: seq<State>)
    ensures SortedByName(r)
    ensures multiset(r) == multiset(states.GetOr([]))
    ensures states.None? ==> r == []
  {
    SortByName(states.GetOr([]))
  }

  /** Where both are defined, the corrected sort agrees with the code as written. */
  lemma SortedStatesAgrees(states: seq<State>)
    ensures SortedStatesAsWritten(Some(states)) == Some(SortedStates(Some(states)))
  {
  }

  /** The grid: one button per sorted state, shown active exactly when its id is in the
      local list. */
  function Buttons(states: Option<seq<State>>, activeIds: seq<string>): (bs: seq<StateButton>)
    ensures |bs| == |SortedStates(states)|
    ensures forall i :: 0 <= i < |bs| ==>
      bs[i].id == SortedStates(states)[i].id && (bs[i].isActive <==> bs[i].id in activeIds)
  {
    var sorted := SortedStates(states);
    seq(|sorted|, i requires 0 <= i < |sorted| => StateButton(sorted[i].id, sorted[i].name, sorted[i].id in activeIds))
  }
}
