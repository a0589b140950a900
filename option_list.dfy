/** The option list's rules apart from the objects that hold it: the size limit
    `AddOption` enforces (a loaded list may exceed it), first-match lookups, removal of one element, the PowerPoint default and the
    selection the constructor restores. */
module OptionList {
  import opened Wrappers
  import opened LineFormats

  const MaxOptions: nat := 5
  const PowerPointId: string := "POWERPNT"
  const PowerPointText: string := "PowerPoint Presentation View"

  /** The index of the first element satisfying `p` (LINQ's `FirstOrDefault`,
      `List.IndexOf`), or `None` when no element does. */
  function FirstIndex<T>(s: seq<T>, p: T -> bool): (r: Option<nat>)
    ensures r.Some? ==> r.value < |s| && p(s[r.value])
    ensures r.Some? ==> forall j :: 0 <= j < r.value ==> !p(s[j])
    ensures r.None? ==> forall j :: 0 <= j < |s| ==> !p(s[j])
    decreases |s|
  {
    if s == [] then None
    else if p(s[0]) then Some(0)
    else match FirstIndex(s[1..], p)
      case None => None
      case Some(k) => Some(k + 1)
  }

  /** No element occurs twice. */
  ghost predicate Distinct<T>(s: seq<T>) {
    forall i, j :: 0 <= i < j < |s| ==> s[i] != s[j]
  }

  /** Removing the element at `k` keeps the others in order. */
  lemma RemoveAtKeepsOthers<T>(s: seq<T>, k: nat)
    requires k < |s|
    ensures var r := s[..k] + s[k + 1..];
            && |r| == |s| - 1
            && multiset(r) == multiset(s) - multiset{s[k]}
            && (forall y :: y in r ==> y in s)
            && (Distinct(s) ==> Distinct(r) && s[k] !in r)
  {
    var r := s[..k] + s[k + 1..];
    assert s == s[..k] + [s[k]] + s[k + 1..];
    assert forall i :: 0 <= i < |r| ==> r[i] == s[if i < k then i else i + 1];
    if Distinct(s) {
      forall i, j | 0 <= i < j < |r| ensures r[i] != r[j] {
        assert r[i] == s[if i < k then i else i + 1];
        assert r[j] == s[if j < k then j else j + 1];
      }
    }
  }

  /** `List.Remove`: drop the first occurrence of `x`, if any, keeping the order of
      the rest. */
  function RemoveFirst<T(==)>(s: seq<T>, x: T): (r: seq<T>)
    ensures x !in s ==> r == s
    ensures x in s ==> |r| == |s| - 1 && multiset(r) == multiset(s) - multiset{x}
    ensures forall y :: y in r ==> y in s
    ensures Distinct(s) ==> Distinct(r) && x !in r
  {
    match FirstIndex(s, y => y == x)
    case None => s
    case Some(k) =>
      RemoveAtKeepsOthers(s, k);
      s[..k] + s[k + 1..]
  }

  /** What `RemoveFirst` removes is the first occurrence: the result is the list
      with that one position cut out, the rest in order. */
  lemma RemoveFirstCutsFirstOccurrence<T>(s: seq<T>, x: T)
    requires x in s
    ensures exists k :: 0 <= k < |s| && s[k] == x && x !in s[..k] && RemoveFirst(s, x) == s[..k] + s[k + 1..]
  {
    match FirstIndex(s, y => y == x)
    case None =>
      assert false;
    case Some(k) =>
      assert x !in s[..k];
  }

  /** Some entry has the given Id. */
  predicate HasId(es: seq<Entry>, id: string) {
    exists i :: 0 <= i < |es| && es[i].id == id
  }

  /** Where the first entry with the given Id sits. */
  function IndexOfId(es: seq<Entry>, id: string): (r: Option<nat>)
    ensures r.Some? <==> HasId(es, id)
    ensures r.Some? ==> r.value < |es| && es[r.value].id == id
    ensures r.Some? ==> forall j :: 0 <= j < r.value ==> es[j].id != id
  {
    FirstIndex(es, (e: Entry) => e.id == id)
  }

  /** The constructor's PowerPoint rule: a "POWERPNT" option is put in front
      unless one is already there. */
  function WithPowerPoint(es: seq<Entry>): (r: seq<Entry>)
    ensures HasId(r, PowerPointId)
    ensures HasId(es, PowerPointId) ==> r == es
    ensures !HasId(es, PowerPointId) ==> r[0] == Entry(PowerPointText, PowerPointId) && r[1..] == es
  {
    if HasId(es, PowerPointId) then es
    else
      var r := [Entry(PowerPointText, PowerPointId)] + es;
      assert r[0].id == PowerPointId;
      r
  }

  /** The persisted Id names an option the constructor can select: it is neither
      null nor empty and some option carries it. */
  predicate Restorable(es: seq<Entry>, lastId: Option<string>) {
    lastId.Some? && lastId.value != "" && HasId(es, lastId.value)
  }

  /** The index the constructor selects: the first option with the persisted Id
      when there is one, otherwise the first option. */
  function InitialSelection(es: seq<Entry>, lastId: Option<string>): (k: nat)
    requires |es| > 0
    ensures k < |es|
    ensures Restorable(es, lastId) ==>
              es[k].id == lastId.value && forall j :: 0 <= j < k ==> es[j].id != lastId.value
    ensures !Restorable(es, lastId) ==> k == 0
  {
    if lastId.Some? && lastId.value != "" then
      match IndexOfId(es, lastId.value)
      case Some(k) => k
      case None => 0
    else 0
  }

  /** A save followed by a restart selects again an option with the Id that was
      selected: the options file and the state file read back, the PowerPoint
      default is not added twice, and the lookup finds the saved Id. */
  lemma RestartRestoresSelection(es: seq<Entry>, isOn: bool, selectedId: string)
    requires CommaFree(es)
    requires selectedId != "" && HasId(es, selectedId)
    ensures var loaded := WithPowerPoint(ParseOptionLines(EncodeOptions(es)));
            var state := DecodeState(EncodeState(isOn, Some(selectedId)));
            && state.Some? && state.value.isOn == isOn
            && loaded[InitialSelection(loaded, Some(state.value.selectedId))].id == selectedId
  {
    OptionsRoundTrip(es);
    var loaded := WithPowerPoint(es);
    var i :| 0 <= i < |es| && es[i].id == selectedId;
    if !HasId(es, PowerPointId) {
      assert loaded[i + 1] == es[i];
    }
    assert HasId(loaded, selectedId);
  }
}
