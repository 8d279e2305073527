/** Turning a name into an id: `findId`, which scripted `start` uses, and
    the first-index selection behind the interactive autocomplete prompt. */
module Lookup {
  import opened Options
  import opened Text
  import opened Json

  /** `element.name` is a string, so `.toLowerCase()` can be called on it;
      for a `null` element reading `.name` already throws. */
  predicate HasStringName(e: Json) {
    && !e.JNull?
    && var n := Get(e, "name");
       n.Some? && n.value.JStr?
  }

  function NameOf(e: Json): string
    requires HasStringName(e)
  {
    Get(e, "name").value.s
  }

  /** The element's name equals the query once both are lower-cased. */
  predicate NameMatches(e: Json, query: string) {
    HasStringName(e) && Lower(NameOf(e)) == Lower(query)
  }

  /** `i` is the first element that matches, and every element before it was
      compared without error. */
  predicate FirstMatchAt(list: seq<Json>, query: string, i: int) {
    && 0 <= i < |list|
    && NameMatches(list[i], query)
    && forall k :: 0 <= k < i ==> HasStringName(list[k]) && !NameMatches(list[k], query)
  }

  /** How `findId` ends. `Found` carries `element.id`, which may be
      undefined; `Crashed` is a `toLowerCase` call on a value that is not a
      string (an element without a string name, or no query at all), which
      throws and leaves the lookup unsettled. */
  datatype LookupResult = Found(id: Option<Json>) | NotFound | Crashed

  /** `findId`: the id of the first element whose lower-cased name equals the
      lower-cased query; the list is scanned in order and the first `resolve`
      wins, and `reject` takes effect only when nothing matched. */
  function FindId(list: seq<Json>, query: Option<string>): (r: LookupResult)
    ensures r.Found? <==> query.Some? && exists i :: FirstMatchAt(list, query.value, i)
    ensures r.Found? ==> exists i :: FirstMatchAt(list, query.value, i) && r.id == Get(list[i], "id")
    ensures r.NotFound? <==>
              || list == []
              || (query.Some? && forall i :: 0 <= i < |list| ==> HasStringName(list[i]) && !NameMatches(list[i], query.value))
    decreases |list|
  {
    if list == [] then NotFound
    else if query.None? || !HasStringName(list[0]) then Crashed
    else if Lower(NameOf(list[0])) == Lower(query.value) then
      assert FirstMatchAt(list, query.value, 0);
      Found(Get(list[0], "id"))
    else
      ShiftFirstMatch(list, query.value);
      FindId(list[1..], query)
  }

  /** When the head is compared without error and does not match, the
      first match of the list is the first match of its tail, one further on. */
  lemma ShiftFirstMatch(list: seq<Json>, query: string)
    requires list != [] && HasStringName(list[0]) && !NameMatches(list[0], query)
    ensures forall i :: FirstMatchAt(list[1..], query, i) <==> FirstMatchAt(list, query, i + 1)
    ensures forall i :: FirstMatchAt(list, query, i) ==> i > 0 && FirstMatchAt(list[1..], query, i - 1)
    ensures (forall i :: 0 <= i < |list| ==> HasStringName(list[i]) && !NameMatches(list[i], query))
            <==> (forall i :: 0 <= i < |list[1..]| ==> HasStringName(list[1..][i]) && !NameMatches(list[1..][i], query))
  {
    forall i | FirstMatchAt(list, query, i + 1)
      ensures FirstMatchAt(list[1..], query, i)
    {
      forall k | 0 <= k < i
        ensures HasStringName(list[1..][k]) && !NameMatches(list[1..][k], query)
      {
        assert list[1..][k] == list[k + 1];
      }
    }
    forall i | 0 <= i < |list|
      ensures list[i] == if i == 0 then list[0] else list[1..][i - 1]
    {
    }
  }

  /** The lookup only sees the query through its lower-case form: queries
      that differ only in letter case find the same id. */
  lemma {:induction false} FindIdIgnoresCase(list: seq<Json>, q1: string, q2: string)
    requires Lower(q1) == Lower(q2)
    ensures FindId(list, Some(q1)) == FindId(list, Some(q2))
    decreases |list|
  {
    if list != [] && HasStringName(list[0]) {
      FindIdIgnoresCase(list[1..], q1, q2);
    }
  }

  /** When several elements share a name, the earliest one's id is found,
      whatever follows it. */
  lemma {:induction false} FindIdPrefersEarlierMatch(front: seq<Json>, back: seq<Json>, query: string)
    requires exists i :: FirstMatchAt(front, query, i)
    ensures FindId(front + back, Some(query)) == FindId(front, Some(query))
    decreases |front|
  {
    var i :| FirstMatchAt(front, query, i);
    assert (front + back)[0] == front[0];
    if i > 0 {
      assert FirstMatchAt(front[1..], query, i - 1);
      assert (front + back)[1..] == front[1..] + back;
      FindIdPrefersEarlierMatch(front[1..], back, query);
    }
  }

  /** `Array.prototype.indexOf` with strict equality: the first index whose
      value is the string `answer`, or -1. */
  function IndexOf(names: seq<Option<Json>>, answer: string): (r: int)
    ensures -1 <= r < |names|
    ensures r >= 0 ==> names[r] == Some(JStr(answer))
    ensures r >= 0 ==> forall k :: 0 <= k < r ==> names[k] != Some(JStr(answer))
    ensures r == -1 <==> forall k :: 0 <= k < |names| ==> names[k] != Some(JStr(answer))
    decreases |names|
  {
    if names == [] then -1
    else if names[0] == Some(JStr(answer)) then 0
    else
      var r := IndexOf(names[1..], answer);
      assert forall k :: 1 <= k < |names| ==> names[k] == names[1..][k - 1];
      if r == -1 then -1 else r + 1
  }

  /** One autocomplete choice: the element's `name` and `id` properties. */
  datatype Choice = Choice(name: Option<Json>, id: Option<Json>)

  /** How the promise of `uiAutocompleteSelect` ends: it resolves with a
      choice, resolves with `undefined` (no name equals the answer, so
      `choices[-1]`), or rejects because building the choices threw inside
      the promise executor. */
  datatype Selection = Selected(choice: Choice) | NoChoice | Rejects

  /** `element.name`, or the throw of reading it from `null`. */
  function NameProperty(e: Json): Option<Json> {
    if e.JNull? then None else Get(e, "name")
  }

  /** `uiAutocompleteSelect` after the prompt answered `answer`. The choices
      are built before the prompt opens, and `element.name` of a `null`
      element throws there; otherwise the selection is the choice at the
      first index whose name is exactly `answer`, or undefined when no name
      is. */
  function AutocompleteSelect(list: seq<Json>, answer: string): (r: Selection)
    ensures r.Rejects? <==> exists k :: 0 <= k < |list| && list[k].JNull?
    ensures r.Selected? <==> && (forall k :: 0 <= k < |list| ==> !list[k].JNull?)
                             && exists k :: 0 <= k < |list| && NameProperty(list[k]) == Some(JStr(answer))
    ensures r.Selected? ==> exists k :: && 0 <= k < |list|
                                        && !list[k].JNull?
                                        && Get(list[k], "name") == Some(JStr(answer))
                                        && r.choice == Choice(Some(JStr(answer)), Get(list[k], "id"))
                                        && forall j :: 0 <= j < k ==> Get(list[j], "name") != Some(JStr(answer))
  {
    if exists k :: 0 <= k < |list| && list[k].JNull? then Rejects
    else
      var names := seq(|list|, i requires 0 <= i < |list| => NameProperty(list[i]));
      var ind := IndexOf(names, answer);
      assert forall k :: 0 <= k < |list| ==> names[k] == NameProperty(list[k]);
      if ind < 0 then NoChoice else Selected(Choice(names[ind], Get(list[ind], "id")))
  }
}
