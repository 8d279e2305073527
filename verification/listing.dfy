/** `printList`: the lines the client prints for a list reply. The output
    mode is chosen by the command-line flags, with precedence verbose, id,
    argos, argosbutton, regular; the layout of a line depends on the
    endpoint and, for measurements, on whether the entry is finished. */
module Listing {
  import opened Text
  import opened Duration
  import opened ListView
  import opened Endpoints

  /** The global command-line flags `--verbose`, `--id`, `--argos`,
      `--argosbutton`. */
  datatype Flags = Flags(verbose: bool, id: bool, argos: bool, argosbutton: bool)

  /** The `argos_bitbar` section of the settings file. */
  datatype ArgosSettings = ArgosSettings(kimaipath: string, buttonlength: string)

  datatype Mode = Verbose | ShowIds | Argos | ArgosButton | Regular

  /** The mode the flags select, by precedence. */
  function ModeOf(flags: Flags): (mode: Mode)
    ensures mode == Verbose <==> flags.verbose
    ensures mode == ShowIds <==> !flags.verbose && flags.id
    ensures mode == Argos <==> !flags.verbose && !flags.id && flags.argos
    ensures mode == ArgosButton <==> !flags.verbose && !flags.id && !flags.argos && flags.argosbutton
    ensures mode == Regular <==> !flags.verbose && !flags.id && !flags.argos && !flags.argosbutton
  {
    if flags.verbose then Verbose
    else if flags.id then ShowIds
    else if flags.argos then Argos
    else if flags.argosbutton then ArgosButton
    else Regular
  }

  predicate IsCatalog(endpoint: string) {
    endpoint == ProjectsEndpoint || endpoint == ActivitiesEndpoint
  }

  /** The result count `debug` prints, which only verbose mode shows. */
  function CountLines(flags: Flags, n: nat): seq<string> {
    if !flags.verbose then []
    else if n > 1 then [NatToString(n) + " results:"]
    else if n == 0 then ["No results"]
    else ["One result:"]
  }

  /** The fixed lines for widget scripts when the list is empty; each flag
      is checked on its own. */
  function EmptyLines(flags: Flags, n: nat): seq<string> {
    if n != 0 then []
    else (if flags.argos then [NoActiveLine] else [])
         + (if flags.argosbutton then ["Kimai2 |"] else [])
  }

  /** The lines for element `i` of `n`, in the order the client tests the
      flags and the endpoint. */
  function ElementLines(flags: Flags, argos: ArgosSettings, endpoint: string, n: nat, i: nat, e: Element): (lines: seq<string>)
    ensures IsCatalog(endpoint) ==> |lines| == 1
    ensures !IsCatalog(endpoint) && flags.verbose ==> |lines| == if n > 1 then 7 else 6
    ensures !flags.verbose ==> |lines| <= 1
    ensures lines == [] <==> && !IsCatalog(endpoint) && ModeOf(flags) == Argos
                             && endpoint != RecentEndpoint && endpoint != ActiveEndpoint
  {
    if IsCatalog(endpoint) then
      if flags.verbose then [SpaceJoin([NatToString(i + 1) + ":", e.name, "(id:" + e.id + ")"])]
      else if flags.id then [SpaceJoin([e.id + ":", e.name])]
      else [e.name]
    else if flags.verbose then
      (if n > 1 then [NatToString(i + 1) + ":"] else [])
      + ["   Id: " + e.id,
         SpaceJoin(["   Project: " + e.project.name, "(id:" + e.project.id + ")"]),
         SpaceJoin(["   Customer: " + e.customer.name, "(id:" + e.customer.id + ")"]),
         SpaceJoin(["   Activity: " + e.activity.name, "(id:" + e.activity.id + ")"]),
         "   Begin: " + e.begin,
         "   Duration: " + FormattedDuration(if e.finished then e.spanMs else e.sinceBeginMs)]
    else if flags.id then
      [SpaceJoin([e.id + ":", e.project.name, "|", e.activity.name])]
    else if flags.argos then
      if endpoint == RecentEndpoint then
        [SpaceJoin(["--" + e.project.name + ",", e.activity.name, "|",
                    "bash=" + argos.kimaipath + " param1=restart param2=" + e.id + " terminal=false refresh=true"])]
      else if endpoint == ActiveEndpoint then
        [SpaceJoin([FormattedDuration(e.sinceBeginMs), e.project.name + ",", e.activity.name, "|",
                    "bash=" + argos.kimaipath + " param1=stop param2=" + e.id + " terminal=false refresh=true"])]
      else []
    else if flags.argosbutton then
      [SpaceJoin([FormattedDuration(e.sinceBeginMs), e.project.name + ",", e.activity.name,
                  "| length=" + argos.buttonlength])]
    else if e.finished then
      [SpaceJoin([e.project.name, "|", e.activity.name])]
    else
      [SpaceJoin([FormattedDuration(e.sinceBeginMs), e.project.name, "|", e.activity.name])]
  }

  /** The lines of each element, in list order. */
  function Blocks(flags: Flags, argos: ArgosSettings, endpoint: string, arr: seq<Element>): (blocks: seq<seq<string>>)
    ensures |blocks| == |arr|
  {
    seq(|arr|, i requires 0 <= i < |arr| => ElementLines(flags, argos, endpoint, |arr|, i, arr[i]))
  }

  lemma BlockAt(flags: Flags, argos: ArgosSettings, endpoint: string, arr: seq<Element>, i: nat)
    requires i < |arr|
    ensures Blocks(flags, argos, endpoint, arr)[i] == ElementLines(flags, argos, endpoint, |arr|, i, arr[i])
  {
  }

  /** The blocks printed one after another. */
  function Concat(blocks: seq<seq<string>>): seq<string> {
    if blocks == [] then [] else blocks[0] + Concat(blocks[1..])
  }

  /** Everything `printList` prints for `arr`. */
  function PrintList(flags: Flags, argos: ArgosSettings, endpoint: string, arr: seq<Element>): (out: seq<string>)
    ensures flags.verbose ==> |out| > 0 && out[0] == (if |arr| > 1 then NatToString(|arr|) + " results:"
                                                     else if |arr| == 0 then "No results" else "One result:")
    ensures !flags.verbose && |arr| > 0 ==> out == Concat(Blocks(flags, argos, endpoint, arr))
  {
    CountLines(flags, |arr|) + EmptyLines(flags, |arr|) + Concat(Blocks(flags, argos, endpoint, arr))
  }

  /** Each element's lines depend on the flags only through the mode. */
  lemma ElementLinesDependOnMode(f1: Flags, f2: Flags, argos: ArgosSettings, endpoint: string, n: nat, i: nat, e: Element)
    requires ModeOf(f1) == ModeOf(f2)
    ensures ElementLines(f1, argos, endpoint, n, i, e) == ElementLines(f2, argos, endpoint, n, i, e)
  {
  }

  /** Mode precedence: for a non-empty list, two flag settings that select
      the same mode print the same lines, so a flag below the selected one
      changes nothing. */
  lemma PrintListDependsOnlyOnMode(f1: Flags, f2: Flags, argos: ArgosSettings, endpoint: string, arr: seq<Element>)
    requires |arr| > 0
    requires ModeOf(f1) == ModeOf(f2)
    ensures PrintList(f1, argos, endpoint, arr) == PrintList(f2, argos, endpoint, arr)
  {
    forall i | 0 <= i < |arr|
      ensures Blocks(f1, argos, endpoint, arr)[i] == Blocks(f2, argos, endpoint, arr)[i]
    {
      ElementLinesDependOnMode(f1, f2, argos, endpoint, |arr|, i, arr[i]);
      BlockAt(f1, argos, endpoint, arr, i);
      BlockAt(f2, argos, endpoint, arr, i);
    }
    assert Blocks(f1, argos, endpoint, arr) == Blocks(f2, argos, endpoint, arr);
  }

  /** An empty list prints the count line in verbose mode, then the argos
      line and the argosbutton line, each only under its own flag. */
  lemma EmptyListing(flags: Flags, argos: ArgosSettings, endpoint: string)
    ensures PrintList(flags, argos, endpoint, [])
         == (if flags.verbose then ["No results"] else [])
            + (if flags.argos then [NoActiveLine] else [])
            + (if flags.argosbutton then ["Kimai2 |"] else [])
  {
  }

  // The layouts `console.log` produces from the argument lists of printList.

  lemma ColonLayout(x: string, y: string)
    ensures SpaceJoin([x + ":", y]) == x + ": " + y
  {
    SpaceJoin2(x + ":", y);
    assert x + ":" + " " == x + ": ";
  }

  lemma CatalogVerboseLayout(x: string, y: string, z: string)
    ensures SpaceJoin([x + ":", y, "(id:" + z + ")"]) == x + ": " + y + " (id:" + z + ")"
  {
    SpaceJoin3(x + ":", y, "(id:" + z + ")");
    assert x + ":" + " " == x + ": ";
    assert " " + ("(id:" + z + ")") == " (id:" + z + ")";
  }

  lemma LabelIdLayout(tag: string, name: string, id: string)
    ensures SpaceJoin([tag + name, "(id:" + id + ")"]) == tag + name + " (id:" + id + ")"
  {
    SpaceJoin2(tag + name, "(id:" + id + ")");
    assert " " + ("(id:" + id + ")") == " (id:" + id + ")";
  }

  lemma BarLayout(p: string, a: string)
    ensures SpaceJoin([p, "|", a]) == p + " | " + a
  {
    SpaceJoin3(p, "|", a);
    assert p + " " + "|" + " " == p + " | ";
  }

  lemma LeadBarLayout(d: string, p: string, a: string)
    ensures SpaceJoin([d, p, "|", a]) == d + " " + p + " | " + a
  {
    SpaceJoin4(d, p, "|", a);
    assert d + " " + p + " " + "|" + " " == d + " " + p + " | ";
  }

  lemma IdBarLayout(x: string, p: string, a: string)
    ensures SpaceJoin([x + ":", p, "|", a]) == x + ": " + p + " | " + a
  {
    SpaceJoin4(x + ":", p, "|", a);
    assert x + ":" + " " == x + ": ";
    assert x + ": " + p + " " + "|" + " " == x + ": " + p + " | ";
  }

  lemma CommaBarLayout(lead: string, p: string, a: string, t: string)
    ensures SpaceJoin([lead + p + ",", a, "|", t]) == lead + p + ", " + a + " | " + t
  {
    SpaceJoin4(lead + p + ",", a, "|", t);
    assert lead + p + "," + " " == lead + p + ", ";
    assert lead + p + ", " + a + " " + "|" + " " == lead + p + ", " + a + " | ";
  }

  lemma LeadCommaBarLayout(d: string, p: string, a: string, t: string)
    ensures SpaceJoin([d, p + ",", a, "|", t]) == d + " " + p + ", " + a + " | " + t
  {
    SpaceJoin5(d, p + ",", a, "|", t);
    assert d + " " + (p + ",") + " " == d + " " + p + ", ";
    assert d + " " + p + ", " + a + " " + "|" + " " == d + " " + p + ", " + a + " | ";
  }

  lemma ButtonLayout(d: string, p: string, a: string, b: string)
    ensures SpaceJoin([d, p + ",", a, "| length=" + b]) == d + " " + p + ", " + a + " | length=" + b
  {
    SpaceJoin4(d, p + ",", a, "| length=" + b);
    assert d + " " + (p + ",") + " " == d + " " + p + ", ";
    assert " " + ("| length=" + b) == " | length=" + b;
  }

  /** Blocks of one line each print one line per block, in order. */
  lemma {:induction false} ConcatSingletons(blocks: seq<seq<string>>)
    requires forall j :: 0 <= j < |blocks| ==> |blocks[j]| == 1
    ensures |Concat(blocks)| == |blocks|
    ensures forall j :: 0 <= j < |blocks| ==> Concat(blocks)[j] == blocks[j][0]
    decreases |blocks|
  {
    if blocks != [] {
      var rest := blocks[1..];
      ConcatSingletons(rest);
      var out := Concat(blocks);
      assert out == blocks[0] + Concat(rest);
      forall j | 1 <= j < |blocks|
        ensures out[j] == blocks[j][0]
      {
        assert rest[j - 1] == blocks[j];
      }
    }
  }

  /** Printing two runs of blocks prints the first run, then the second. */
  lemma {:induction false} ConcatAppend(a: seq<seq<string>>, b: seq<seq<string>>)
    ensures Concat(a + b) == Concat(a) + Concat(b)
    decreases |a|
  {
    if a == [] {
      assert a + b == b;
    } else {
      assert (a + b)[0] == a[0];
      assert (a + b)[1..] == a[1..] + b;
      ConcatAppend(a[1..], b);
    }
  }

  /** Block `j` is printed right after the blocks before it. */
  lemma ConcatAt(blocks: seq<seq<string>>, j: nat)
    requires j < |blocks|
    ensures var start := |Concat(blocks[..j])|;
            && start + |blocks[j]| <= |Concat(blocks)|
            && Concat(blocks)[start..start + |blocks[j]|] == blocks[j]
  {
    assert blocks == blocks[..j] + blocks[j..];
    ConcatAppend(blocks[..j], blocks[j..]);
    assert Concat(blocks[j..]) == blocks[j] + Concat(blocks[j..][1..]);
  }

  lemma SliceAfterHead(head: seq<string>, c: seq<string>, x: nat, y: nat)
    requires x <= y <= |c|
    ensures (head + c)[|head| + x .. |head| + y] == c[x..y]
  {
    var out := head + c;
    forall t | 0 <= t < y - x
      ensures out[|head| + x .. |head| + y][t] == c[x..y][t]
    {
      assert out[|head| + x + t] == c[x + t];
    }
  }

  /** `n` blocks of `k` lines, counted without multiplying. */
  function Offset(n: nat, k: nat): nat {
    if n == 0 then 0 else Offset(n - 1, k) + k
  }

  lemma {:induction false} OffsetIsProduct(n: nat, k: nat)
    ensures Offset(n, k) == n * k
  {
    if n > 0 {
      OffsetIsProduct(n - 1, k);
      assert (n - 1) * k + k == n * k;
    }
  }

  /** Blocks of `k` lines each print `k` lines per block. */
  lemma {:induction false} ConcatUniformLength(blocks: seq<seq<string>>, k: nat)
    requires forall j :: 0 <= j < |blocks| ==> |blocks[j]| == k
    ensures |Concat(blocks)| == Offset(|blocks|, k)
    decreases |blocks|
  {
    if blocks != [] {
      ConcatUniformLength(blocks[1..], k);
    }
  }

  /** After a heading, blocks of `k` lines each: block `i` starts after the
      heading and the `i` blocks before it. */
  lemma HeadedBlockAt(head: seq<string>, blocks: seq<seq<string>>, k: nat, i: nat)
    requires forall j :: 0 <= j < |blocks| ==> |blocks[j]| == k
    requires i < |blocks|
    ensures |head| + Offset(i, k) + k <= |head + Concat(blocks)|
    ensures (head + Concat(blocks))[|head| + Offset(i, k) .. |head| + Offset(i, k) + k] == blocks[i]
  {
    ConcatAt(blocks, i);
    ConcatUniformLength(blocks[..i], k);
    assert |blocks[..i]| == i;
    SliceAfterHead(head, Concat(blocks), Offset(i, k), Offset(i, k) + k);
  }


  /** The reference layout of a project or activity line. */
  function CatalogLine(mode: Mode, i: nat, e: Element): string {
    match mode
    case Verbose => NatToString(i + 1) + ": " + e.name + " (id:" + e.id + ")"
    case ShowIds => e.id + ": " + e.name
    case _ => e.name
  }

  lemma CatalogElementLine(flags: Flags, argos: ArgosSettings, endpoint: string, n: nat, i: nat, e: Element)
    requires IsCatalog(endpoint)
    ensures ElementLines(flags, argos, endpoint, n, i, e) == [CatalogLine(ModeOf(flags), i, e)]
  {
    match ModeOf(flags)
    case Verbose => CatalogVerboseLayout(NatToString(i + 1), e.name, e.id);
    case ShowIds => ColonLayout(e.id, e.name);
    case _ =>
  }

  /** Projects and activities: after the verbose count line, one line per
      element in list order: "(i+1): name (id:ID)" in verbose mode,
      "ID: name" in id mode, and the bare name otherwise. */
  lemma CatalogListing(flags: Flags, argos: ArgosSettings, endpoint: string, arr: seq<Element>)
    requires IsCatalog(endpoint) && |arr| > 0
    ensures var out := PrintList(flags, argos, endpoint, arr);
            var skip := if flags.verbose then 1 else 0;
            && |out| == skip + |arr|
            && forall i :: 0 <= i < |arr| ==> out[skip + i] == CatalogLine(ModeOf(flags), i, arr[i])
  {
    forall j | 0 <= j < |arr|
      ensures Blocks(flags, argos, endpoint, arr)[j] == [CatalogLine(ModeOf(flags), j, arr[j])]
    {
      CatalogElementLine(flags, argos, endpoint, |arr|, j, arr[j]);
      BlockAt(flags, argos, endpoint, arr, j);
    }
    ConcatSingletons(Blocks(flags, argos, endpoint, arr));
  }

  /** The reference layout of a measurement line in regular mode. */
  function RegularLine(e: Element): string {
    (if e.finished then "" else FormattedDuration(e.sinceBeginMs) + " ")
    + e.project.name + " | " + e.activity.name
  }

  lemma RegularElementLine(flags: Flags, argos: ArgosSettings, endpoint: string, n: nat, i: nat, e: Element)
    requires !IsCatalog(endpoint) && ModeOf(flags) == Regular
    ensures ElementLines(flags, argos, endpoint, n, i, e) == [RegularLine(e)]
  {
    if e.finished {
      BarLayout(e.project.name, e.activity.name);
      assert "" + e.project.name == e.project.name;
    } else {
      LeadBarLayout(FormattedDuration(e.sinceBeginMs), e.project.name, e.activity.name);
    }
  }

  /** Regular mode: one line per measurement; an active one starts with its
      running time, a finished one leaves the duration out. */
  lemma RegularMeasurementListing(flags: Flags, argos: ArgosSettings, endpoint: string, arr: seq<Element>)
    requires !IsCatalog(endpoint) && ModeOf(flags) == Regular && |arr| > 0
    ensures var out := PrintList(flags, argos, endpoint, arr);
            && |out| == |arr|
            && forall i :: 0 <= i < |arr| ==> out[i] == RegularLine(arr[i])
  {
    forall j | 0 <= j < |arr|
      ensures Blocks(flags, argos, endpoint, arr)[j] == [RegularLine(arr[j])]
    {
      RegularElementLine(flags, argos, endpoint, |arr|, j, arr[j]);
      BlockAt(flags, argos, endpoint, arr, j);
    }
    ConcatSingletons(Blocks(flags, argos, endpoint, arr));
  }

  /** The argos action text: run the client with `verb` on the entry's id. */
  function ArgosAction(argos: ArgosSettings, verb: string, id: string): string {
    "bash=" + argos.kimaipath + " param1=" + verb + " param2=" + id + " terminal=false refresh=true"
  }

  /** The reference layout of an argos line: recent entries offer a restart
      action, active entries show their running time and offer a stop
      action, each naming the entry's id. */
  function ArgosLine(argos: ArgosSettings, endpoint: string, e: Element): string {
    if endpoint == RecentEndpoint then
      "--" + e.project.name + ", " + e.activity.name + " | " + ArgosAction(argos, "restart", e.id)
    else
      FormattedDuration(e.sinceBeginMs) + " " + e.project.name + ", " + e.activity.name + " | "
      + ArgosAction(argos, "stop", e.id)
  }

  lemma ArgosElementLine(flags: Flags, argos: ArgosSettings, endpoint: string, n: nat, i: nat, e: Element)
    requires ModeOf(flags) == Argos && (endpoint == RecentEndpoint || endpoint == ActiveEndpoint)
    ensures ElementLines(flags, argos, endpoint, n, i, e) == [ArgosLine(argos, endpoint, e)]
  {
    var p, a := e.project.name, e.activity.name;
    if endpoint == RecentEndpoint {
      var action := "bash=" + argos.kimaipath + " param1=restart param2=" + e.id + " terminal=false refresh=true";
      assert action == ArgosAction(argos, "restart", e.id);
      CommaBarLayout("--", p, a, action);
    } else {
      var action := "bash=" + argos.kimaipath + " param1=stop param2=" + e.id + " terminal=false refresh=true";
      assert action == ArgosAction(argos, "stop", e.id);
      LeadCommaBarLayout(FormattedDuration(e.sinceBeginMs), p, a, action);
    }
  }

  /** Argos mode on the recent or active list: one line per entry. */
  lemma ArgosListing(flags: Flags, argos: ArgosSettings, endpoint: string, arr: seq<Element>)
    requires ModeOf(flags) == Argos && (endpoint == RecentEndpoint || endpoint == ActiveEndpoint) && |arr| > 0
    ensures var out := PrintList(flags, argos, endpoint, arr);
            && |out| == |arr|
            && forall i :: 0 <= i < |arr| ==> out[i] == ArgosLine(argos, endpoint, arr[i])
  {
    forall j | 0 <= j < |arr|
      ensures Blocks(flags, argos, endpoint, arr)[j] == [ArgosLine(argos, endpoint, arr[j])]
    {
      ArgosElementLine(flags, argos, endpoint, |arr|, j, arr[j]);
      BlockAt(flags, argos, endpoint, arr, j);
    }
    ConcatSingletons(Blocks(flags, argos, endpoint, arr));
  }

  /** Argos mode on any other measurement list prints nothing at all. */
  lemma ArgosElsewhereSilent(flags: Flags, argos: ArgosSettings, endpoint: string, arr: seq<Element>)
    requires ModeOf(flags) == Argos && !IsCatalog(endpoint)
    requires endpoint != RecentEndpoint && endpoint != ActiveEndpoint && |arr| > 0
    ensures PrintList(flags, argos, endpoint, arr) == []
  {
    var blocks := Blocks(flags, argos, endpoint, arr);
    forall j | 0 <= j < |arr|
      ensures blocks[j] == []
    {
      BlockAt(flags, argos, endpoint, arr, j);
    }
    ConcatEmpties(blocks);
  }

  lemma {:induction false} ConcatEmpties(blocks: seq<seq<string>>)
    requires forall j :: 0 <= j < |blocks| ==> blocks[j] == []
    ensures Concat(blocks) == []
    decreases |blocks|
  {
    if blocks != [] {
      assert blocks[0] == [];
      ConcatEmpties(blocks[1..]);
    }
  }

  /** The reference layout of a measurement line in id mode. */
  function IdLine(e: Element): string {
    e.id + ": " + e.project.name + " | " + e.activity.name
  }

  lemma IdElementLine(flags: Flags, argos: ArgosSettings, endpoint: string, n: nat, i: nat, e: Element)
    requires !IsCatalog(endpoint) && ModeOf(flags) == ShowIds
    ensures ElementLines(flags, argos, endpoint, n, i, e) == [IdLine(e)]
  {
    IdBarLayout(e.id, e.project.name, e.activity.name);
  }

  /** Id mode on measurements: one line per entry, led by the entry's id. */
  lemma IdMeasurementListing(flags: Flags, argos: ArgosSettings, endpoint: string, arr: seq<Element>)
    requires !IsCatalog(endpoint) && ModeOf(flags) == ShowIds && |arr| > 0
    ensures var out := PrintList(flags, argos, endpoint, arr);
            && |out| == |arr|
            && forall i :: 0 <= i < |arr| ==> out[i] == IdLine(arr[i])
  {
    forall j | 0 <= j < |arr|
      ensures Blocks(flags, argos, endpoint, arr)[j] == [IdLine(arr[j])]
    {
      IdElementLine(flags, argos, endpoint, |arr|, j, arr[j]);
      BlockAt(flags, argos, endpoint, arr, j);
    }
    ConcatSingletons(Blocks(flags, argos, endpoint, arr));
  }

  /** The reference layout of an argos button line: the running time, the
      names and the configured button length. */
  function ButtonLine(argos: ArgosSettings, e: Element): string {
    FormattedDuration(e.sinceBeginMs) + " " + e.project.name + ", " + e.activity.name
    + " | length=" + argos.buttonlength
  }

  lemma ButtonElementLine(flags: Flags, argos: ArgosSettings, endpoint: string, n: nat, i: nat, e: Element)
    requires !IsCatalog(endpoint) && ModeOf(flags) == ArgosButton
    ensures ElementLines(flags, argos, endpoint, n, i, e) == [ButtonLine(argos, e)]
  {
    ButtonLayout(FormattedDuration(e.sinceBeginMs), e.project.name, e.activity.name, argos.buttonlength);
  }

  /** Argos button mode on measurements: one line per entry, whatever the
      endpoint and whether or not the entry is finished. */
  lemma ButtonListing(flags: Flags, argos: ArgosSettings, endpoint: string, arr: seq<Element>)
    requires !IsCatalog(endpoint) && ModeOf(flags) == ArgosButton && |arr| > 0
    ensures var out := PrintList(flags, argos, endpoint, arr);
            && |out| == |arr|
            && forall i :: 0 <= i < |arr| ==> out[i] == ButtonLine(argos, arr[i])
  {
    forall j | 0 <= j < |arr|
      ensures Blocks(flags, argos, endpoint, arr)[j] == [ButtonLine(argos, arr[j])]
    {
      ButtonElementLine(flags, argos, endpoint, |arr|, j, arr[j]);
      BlockAt(flags, argos, endpoint, arr, j);
    }
    ConcatSingletons(Blocks(flags, argos, endpoint, arr));
  }

  /** The verbose block of one measurement: its position when the list has
      more than one entry, then six lines ending with the duration up to the
      end for a finished entry and up to now for an active one. */
  lemma VerboseBlock(flags: Flags, argos: ArgosSettings, endpoint: string, n: nat, i: nat, e: Element)
    requires flags.verbose && !IsCatalog(endpoint)
    ensures var block := ElementLines(flags, argos, endpoint, n, i, e);
            var k := if n > 1 then 7 else 6;
            && |block| == k
            && (n > 1 ==> block[0] == NatToString(i + 1) + ":")
            && block[k - 6] == "   Id: " + e.id
            && block[k - 5] == "   Project: " + e.project.name + " (id:" + e.project.id + ")"
            && block[k - 4] == "   Customer: " + e.customer.name + " (id:" + e.customer.id + ")"
            && block[k - 3] == "   Activity: " + e.activity.name + " (id:" + e.activity.id + ")"
            && block[k - 2] == "   Begin: " + e.begin
            && block[k - 1] == "   Duration: " + FormattedDuration(if e.finished then e.spanMs else e.sinceBeginMs)
  {
    LabelIdLayout("   Project: ", e.project.name, e.project.id);
    LabelIdLayout("   Customer: ", e.customer.name, e.customer.id);
    LabelIdLayout("   Activity: ", e.activity.name, e.activity.id);
  }

  lemma VerboseBlocksUniform(flags: Flags, argos: ArgosSettings, endpoint: string, arr: seq<Element>)
    requires flags.verbose && !IsCatalog(endpoint)
    ensures forall j :: 0 <= j < |arr| ==>
              |Blocks(flags, argos, endpoint, arr)[j]| == if |arr| > 1 then 7 else 6
  {
    forall j | 0 <= j < |arr|
      ensures |Blocks(flags, argos, endpoint, arr)[j]| == if |arr| > 1 then 7 else 6
    {
      VerboseBlock(flags, argos, endpoint, |arr|, j, arr[j]);
      BlockAt(flags, argos, endpoint, arr, j);
    }
  }

  /** In verbose mode the listing is the count line followed by the blocks. */
  lemma VerboseListingShape(flags: Flags, argos: ArgosSettings, endpoint: string, arr: seq<Element>)
    requires flags.verbose && |arr| > 0
    ensures PrintList(flags, argos, endpoint, arr)
         == [if |arr| > 1 then NatToString(|arr|) + " results:" else "One result:"] + Concat(Blocks(flags, argos, endpoint, arr))
  {
  }

  /** Verbose mode on a single measurement: "One result:" and its six-line
      block. */
  lemma VerboseSingleListing(flags: Flags, argos: ArgosSettings, endpoint: string, e: Element)
    requires flags.verbose && !IsCatalog(endpoint)
    ensures PrintList(flags, argos, endpoint, [e]) == ["One result:"] + ElementLines(flags, argos, endpoint, 1, 0, e)
    ensures |ElementLines(flags, argos, endpoint, 1, 0, e)| == 6
  {
    var blocks := Blocks(flags, argos, endpoint, [e]);
    VerboseListingShape(flags, argos, endpoint, [e]);
    VerboseBlock(flags, argos, endpoint, 1, 0, e);
    BlockAt(flags, argos, endpoint, [e], 0);
    assert Concat(blocks) == blocks[0] + Concat(blocks[1..]);
    assert blocks[1..] == [];
  }

  /** Verbose mode on several measurements: the count line, then each
      entry's seven-line block (headed by its position) in list order. */
  lemma VerboseMeasurementListing(flags: Flags, argos: ArgosSettings, endpoint: string, arr: seq<Element>)
    requires flags.verbose && !IsCatalog(endpoint) && |arr| > 1
    ensures |PrintList(flags, argos, endpoint, arr)| == 1 + 7 * |arr|
    ensures PrintList(flags, argos, endpoint, arr)[0] == NatToString(|arr|) + " results:"
    ensures forall i :: 0 <= i < |arr| ==>
              PrintList(flags, argos, endpoint, arr)[1 + 7 * i .. 8 + 7 * i]
              == ElementLines(flags, argos, endpoint, |arr|, i, arr[i])
  {
    var blocks := Blocks(flags, argos, endpoint, arr);
    VerboseBlocksUniform(flags, argos, endpoint, arr);
    VerboseListingShape(flags, argos, endpoint, arr);
    SevenLineBlocks(NatToString(|arr|) + " results:", blocks);
    forall i | 0 <= i < |arr|
      ensures blocks[i] == ElementLines(flags, argos, endpoint, |arr|, i, arr[i])
    {
      BlockAt(flags, argos, endpoint, arr, i);
    }
  }

  /** One heading line, then blocks of seven lines: block `i` occupies lines
      `1 + 7 * i` up to `8 + 7 * i`. */
  lemma SevenLineBlocks(heading: string, blocks: seq<seq<string>>)
    requires forall j :: 0 <= j < |blocks| ==> |blocks[j]| == 7
    ensures |[heading] + Concat(blocks)| == 1 + 7 * |blocks|
    ensures ([heading] + Concat(blocks))[0] == heading
    ensures forall i :: 0 <= i < |blocks| ==> ([heading] + Concat(blocks))[1 + 7 * i .. 8 + 7 * i] == blocks[i]
  {
    ConcatUniformLength(blocks, 7);
    OffsetIsProduct(|blocks|, 7);
    forall i | 0 <= i < |blocks|
      ensures ([heading] + Concat(blocks))[1 + 7 * i .. 8 + 7 * i] == blocks[i]
    {
      OffsetIsProduct(i, 7);
      HeadedBlockAt([heading], blocks, 7, i);
    }
  }

}
