/** Requirement merging, and the check that blocks a tool call with missing parameters.
    Requirements come from several sources, of which the last valid value counts; a call is blocked when
    a parameter it needs is not known. */
module Requirements {
  import opened Common
  import opened Templates

  /** A dictionary of slot values as they come, each as the text that str() gives or None. */
  type Source = map<string, Option<string>>

  /** What the texts are made of: white space, and lower case. */
  datatype Texts = Texts(alphabet: Alphabet, lower: string -> string)

  const INVALID_VALUES: set<string> := {"unknown", "null", "none", "n/a", "na", "待定", "未知", "无"}

  predicate IsValid(tx: Texts, value: Option<string>) {
    value.Some? && Strip(tx.alphabet, value.value) != "" && tx.lower(Strip(tx.alphabet, value.value)) !in INVALID_VALUES
  }

  function ValidKeys(tx: Texts, source: Source): set<string> {
    set k | k in source && IsValid(tx, source[k])
  }

  /** The valid values of a source overwrite, stripped. */
  function Overlay(tx: Texts, base: map<string, string>, source: Source): map<string, string> {
    map k | k in base.Keys + ValidKeys(tx, source) ::
      if k in ValidKeys(tx, source) then Strip(tx.alphabet, source[k].value) else base[k]
  }

  /** Sources overlay one another from left to right; a missing source counts as an empty one. */
  function Merged(tx: Texts, sources: seq<Option<Source>>): map<string, string> {
    if sources == [] then map[]
    else Overlay(tx, Merged(tx, sources[..|sources| - 1]), sources[|sources| - 1].GetOr(map[]))
  }

  method MergeRequirements(tx: Texts, sources: seq<Option<Source>>) returns (merged: map<string, string>)
    ensures merged == Merged(tx, sources)
  {
    merged := map[];
    for i := 0 to |sources|
      invariant merged == Merged(tx, sources[..i])
    {
      assert sources[..i + 1][..i] == sources[..i];
      if sources[i].Some? {
        merged := AddValid(tx, merged, sources[i].value);
      } else {
        assert Overlay(tx, merged, map[]) == merged;
      }
    }
    assert sources[..|sources|] == sources;
  }

  function Only(source: Source, keys: set<string>): Source {
    map k | k in source && k in keys :: source[k]
  }

  lemma ValidKeysOneMore(tx: Texts, source: Source, keys: set<string>, key: string)
    requires key in source && key !in keys
    ensures ValidKeys(tx, Only(source, keys + {key}))
            == ValidKeys(tx, Only(source, keys)) + (if key in ValidKeys(tx, source) then {key} else {})
  {
  }

  lemma OverlayOneMore(tx: Texts, base: map<string, string>, source: Source, keys: set<string>, key: string)
    requires key in source && key !in keys
    ensures Overlay(tx, base, Only(source, keys + {key}))
            == if key in ValidKeys(tx, source) then Overlay(tx, base, Only(source, keys))[key := Strip(tx.alphabet, source[key].value)]
               else Overlay(tx, base, Only(source, keys))
  {
    ValidKeysOneMore(tx, source, keys, key);
  }

  /** The inner loop, in any order of the source's keys. */
  method AddValid(tx: Texts, base: map<string, string>, source: Source) returns (merged: map<string, string>)
    ensures merged == Overlay(tx, base, source)
  {
    merged := base;
    var done: set<string> := {};
    assert Only(source, done) == map[];
    while source.Keys - done != {}
      invariant done <= source.Keys
      invariant merged == Overlay(tx, base, Only(source, done))
      decreases source.Keys - done
    {
      var key :| key in source.Keys - done;
      OverlayOneMore(tx, base, source, done, key);
      done := done + {key};
      if IsValid(tx, source[key]) {
        merged := merged[key := Strip(tx.alphabet, source[key].value)];
      }
    }
    assert source.Keys <= done by {
      forall k | k in source.Keys ensures k in done {
        assert k !in source.Keys - done;
      }
    }
    assert Only(source, done) == source;
  }

  // ---- what merging means ----

  /** The last valid value of a key. */
  function LastValid(tx: Texts, sources: seq<Option<Source>>, key: string): Option<string> {
    if sources == [] then None
    else
      var last := sources[|sources| - 1].GetOr(map[]);
      if key in last && IsValid(tx, last[key]) then last[key] else LastValid(tx, sources[..|sources| - 1], key)
  }

  lemma {:induction false} MergedIsLastValid(tx: Texts, sources: seq<Option<Source>>, key: string)
    ensures var last := LastValid(tx, sources, key);
            && (key in Merged(tx, sources) <==> last.Some?)
            && (last.Some? ==> Merged(tx, sources)[key] == Strip(tx.alphabet, last.value))
  {
    if sources != [] {
      MergedIsLastValid(tx, sources[..|sources| - 1], key);
    }
  }

  /** A value that says something: stripped it is not empty, nor one of the words that stand for nothing. */
  predicate Says(tx: Texts, value: Option<string>) {
    && value.Some? && Strip(tx.alphabet, value.value) != ""
    && tx.lower(Strip(tx.alphabet, value.value)) !in ["unknown", "null", "none", "n/a", "na", "待定", "未知", "无"]
  }

  /** A key is known after merging if and only if some source gives it a value that says something. */
  lemma {:induction false} KnownIffSomeSourceSays(tx: Texts, sources: seq<Option<Source>>, key: string)
    ensures key in Merged(tx, sources) <==> exists i | 0 <= i < |sources| :: Tells(tx, sources[i], key)
  {
    if sources != [] {
      var init, last := sources[..|sources| - 1], sources[|sources| - 1];
      KnownIffSomeSourceSays(tx, init, key);
      assert sources == init + [last];
      OneMoreSourceSays(tx, init, last, key);
    }
  }

  /** ... and its value is then that of the last such source, stripped. */
  lemma {:induction false} KnownFromLastSource(tx: Texts, sources: seq<Option<Source>>, key: string, i: nat)
    requires i < |sources| && Tells(tx, sources[i], key) && forall j | i < j < |sources| :: !Tells(tx, sources[j], key)
    ensures key in Merged(tx, sources) && Merged(tx, sources)[key] == Strip(tx.alphabet, sources[i].value[key].value)
  {
    var init, last := sources[..|sources| - 1], sources[|sources| - 1];
    assert sources == init + [last];
    OneMoreSourceSays(tx, init, last, key);
    if i < |init| {
      KnownFromLastSource(tx, init, key, i);
    }
  }

  lemma OneMoreSourceSays(tx: Texts, init: seq<Option<Source>>, last: Option<Source>, key: string)
    ensures var m := Merged(tx, init + [last]);
            && (key in m <==> key in Merged(tx, init) || Tells(tx, last, key))
            && (key in m ==> m[key] == if Tells(tx, last, key) then Strip(tx.alphabet, last.value[key].value) else Merged(tx, init)[key])
  {
    assert (init + [last])[..|init|] == init;
    assert Tells(tx, last, key) <==> key in ValidKeys(tx, last.GetOr(map[]));
  }

  predicate Tells(tx: Texts, source: Option<Source>, key: string) {
    source.Some? && key in source.value && Says(tx, source.value[key])
  }

  function Lifted(m: map<string, string>): Source {
    map k | k in m :: Some(m[k])
  }

  /** A merged value stays valid, and stripping it again changes nothing. */
  predicate Settled(tx: Texts, m: map<string, string>) {
    forall k | k in m :: IsValid(tx, Some(m[k])) && Strip(tx.alphabet, m[k]) == m[k]
  }

  lemma {:induction false} MergedIsSettled(tx: Texts, sources: seq<Option<Source>>)
    ensures Settled(tx, Merged(tx, sources))
  {
    if sources != [] {
      MergedIsSettled(tx, sources[..|sources| - 1]);
      var last := sources[|sources| - 1].GetOr(map[]);
      forall k | k in ValidKeys(tx, last)
        ensures Strip(tx.alphabet, Strip(tx.alphabet, last[k].value)) == Strip(tx.alphabet, last[k].value)
      {
        StripIdempotent(tx.alphabet, last[k].value);
      }
    }
  }

  lemma OverlayOfSettled(tx: Texts, base: map<string, string>, m: map<string, string>)
    requires Settled(tx, m)
    ensures Overlay(tx, base, Lifted(m)) == base + m
  {
    assert ValidKeys(tx, Lifted(m)) == m.Keys;
  }

  lemma OverlayOfSum(tx: Texts, base: map<string, string>, m: map<string, string>, source: Source)
    ensures Overlay(tx, base + m, source) == base + Overlay(tx, m, source)
  {
  }

  lemma {:induction false} MergedAppend(tx: Texts, a: seq<Option<Source>>, b: seq<Option<Source>>)
    ensures Merged(tx, a + b) == Merged(tx, a) + Merged(tx, b)
  {
    if b == [] {
      assert a + b == a;
      assert Merged(tx, a) + map[] == Merged(tx, a);
    } else {
      assert (a + b)[..|a + b| - 1] == a + b[..|b| - 1];
      MergedAppend(tx, a, b[..|b| - 1]);
      OverlayOfSum(tx, Merged(tx, a), Merged(tx, b[..|b| - 1]), b[|b| - 1].GetOr(map[]));
    }
  }

  function Flattened(parts: seq<seq<Option<Source>>>): seq<Option<Source>> {
    if parts == [] then [] else Flattened(parts[..|parts| - 1]) + parts[|parts| - 1]
  }

  function MergedParts(tx: Texts, parts: seq<seq<Option<Source>>>): (merged: seq<Option<Source>>)
    ensures |merged| == |parts|
    ensures forall i | 0 <= i < |parts| :: merged[i] == Some(Lifted(Merged(tx, parts[i])))
  {
    seq(|parts|, i requires 0 <= i < |parts| => Some(Lifted(Merged(tx, parts[i]))))
  }

  /** Merging parts that are already merged gives what merging all their sources at once gives. */
  lemma {:induction false} MergingMergedParts(tx: Texts, parts: seq<seq<Option<Source>>>)
    ensures Merged(tx, MergedParts(tx, parts)) == Merged(tx, Flattened(parts))
  {
    if parts != [] {
      var init, last := parts[..|parts| - 1], parts[|parts| - 1];
      MergingMergedParts(tx, init);
      assert MergedParts(tx, parts)[..|parts| - 1] == MergedParts(tx, init);
      MergedIsSettled(tx, last);
      OverlayOfSettled(tx, Merged(tx, Flattened(init)), Merged(tx, last));
      MergedAppend(tx, Flattened(init), last);
    }
  }

  // ---- the check before a tool call ----

  datatype Slot = Slot(name: string, caption: string, requiredFor: set<string>)

  const SLOTS: seq<Slot> := [
    Slot("location", "城市/区域", {"web_search"}),
    Slot("destination", "目的地", {}),
    Slot("departure_time", "出发时间", {}),
    Slot("return_time", "返回时间", {}),
    Slot("date", "日期", {}),
    Slot("time", "时间", {}),
    Slot("people", "人数", {}),
    Slot("budget", "预算", {})]

  const FREE_TEXT: set<string> := {"query", "parameters"}

  /** The rules of one check: the slots, the parameters a tool declares as required, what the
      regular expressions extract, and which queries depend on a place. */
  datatype Rules = Rules(texts: Texts, slots: seq<Slot>, declared: string -> seq<string>,
                         extract: string -> Source, needsPlace: string -> bool)

  datatype Request = Request(tool: string, args: Source, query: string, extracted: Source, conversation: string)

  /** The names of everything known: merged requirements, and valid named arguments. */
  function Available(r: Rules, q: Request): set<string> {
    Merged(r.texts, [Some(q.extracted), Some(r.extract(q.query)), Some(r.extract(q.conversation))]).Keys
    + (ValidKeys(r.texts, q.args) - FREE_TEXT)
  }

  predicate SlotApplies(r: Rules, q: Request, slot: Slot) {
    && (q.tool in slot.requiredFor || "*" in slot.requiredFor)
    && !(slot.name == "location" && q.tool == "web_search" && !r.needsPlace(q.query))
  }

  /** The call is complete: every declared parameter and every slot that applies is known. */
  predicate Complete(r: Rules, q: Request) {
    && (forall i | 0 <= i < |r.declared(q.tool)| :: r.declared(q.tool)[i] in Available(r, q) + FREE_TEXT)
    && (forall i | 0 <= i < |r.slots| :: SlotApplies(r, q, r.slots[i]) ==> r.slots[i].name in Available(r, q))
  }

  function LabelFrom(slots: seq<Slot>, name: string): string {
    if slots == [] then name
    else if slots[|slots| - 1].name == name then slots[|slots| - 1].caption
    else LabelFrom(slots[..|slots| - 1], name)
  }

  ghost predicate NoSlotFrom(slots: seq<Slot>, i: nat, name: string) {
    forall k | i <= k < |slots| :: slots[k].name != name
  }

  /** A label is the caption of the last slot of that name, or the name itself. */
  lemma {:induction false} LabelIsLastCaption(slots: seq<Slot>, name: string, i: nat)
    ensures NoSlotFrom(slots, 0, name) ==> LabelFrom(slots, name) == name
    ensures i < |slots| && slots[i].name == name && NoSlotFrom(slots, i + 1, name) ==> LabelFrom(slots, name) == slots[i].caption
  {
    if slots != [] && slots[|slots| - 1].name != name {
      LabelIsLastCaption(slots[..|slots| - 1], name, i);
    }
  }

  /** The names a check asks for, with their labels, in order and with repetitions. */
  function DeclaredMissing(r: Rules, q: Request, n: nat): seq<(string, string)>
    requires n <= |r.declared(q.tool)|
  {
    if n == 0 then []
    else
      var name := r.declared(q.tool)[n - 1];
      DeclaredMissing(r, q, n - 1) + (if name in Available(r, q) + FREE_TEXT then [] else [(name, LabelFrom(r.slots, name))])
  }

  function SlotsMissing(r: Rules, q: Request, n: nat): seq<(string, string)>
    requires n <= |r.slots|
  {
    if n == 0 then []
    else
      var slot := r.slots[n - 1];
      SlotsMissing(r, q, n - 1)
      + (if SlotApplies(r, q, slot) && slot.name !in Available(r, q) then [(slot.name, slot.caption)] else [])
  }

  function AllMissing(r: Rules, q: Request): seq<(string, string)> {
    DeclaredMissing(r, q, |r.declared(q.tool)|) + SlotsMissing(r, q, |r.slots|)
  }

  predicate Named(pairs: seq<(string, string)>, name: string) {
    exists i | 0 <= i < |pairs| :: pairs[i].0 == name
  }

  /** Each name once, with the label of its first occurrence. */
  function FirstOfEachName(pairs: seq<(string, string)>): seq<(string, string)> {
    if pairs == [] then []
    else
      var init, last := FirstOfEachName(pairs[..|pairs| - 1]), pairs[|pairs| - 1];
      if Named(init, last.0) then init else init + [last]
  }

  lemma {:induction false} FirstOfEachNameExact(pairs: seq<(string, string)>, name: string)
    ensures var unique := FirstOfEachName(pairs);
            && (Named(unique, name) <==> Named(pairs, name))
            && (forall i, j | 0 <= i < j < |unique| :: unique[i].0 != unique[j].0)
  {
    if pairs != [] {
      var init, last := pairs[..|pairs| - 1], pairs[|pairs| - 1];
      FirstOfEachNameExact(init, name);
      FirstOfEachNameExact(init, last.0);
      var unique := FirstOfEachName(init);
      assert Named(pairs, name) <==> Named(init, name) || last.0 == name by {
        if Named(init, name) {
          var i :| 0 <= i < |init| && init[i].0 == name;
          assert pairs[i].0 == name;
        }
        assert pairs[|pairs| - 1].0 == last.0;
      }
      assert Named(unique + [last], name) <==> Named(unique, name) || last.0 == name by {
        if Named(unique, name) {
          var i :| 0 <= i < |unique| && unique[i].0 == name;
          assert (unique + [last])[i].0 == name;
        }
        assert (unique + [last])[|unique|].0 == last.0;
      }
    }
  }

  lemma {:induction false} DeclaredMissingNothing(r: Rules, q: Request, n: nat)
    requires n <= |r.declared(q.tool)|
    ensures DeclaredMissing(r, q, n) == [] <==> forall i | 0 <= i < n :: r.declared(q.tool)[i] in Available(r, q) + FREE_TEXT
  {
    if n > 0 {
      DeclaredMissingNothing(r, q, n - 1);
    }
  }

  lemma {:induction false} SlotsMissingNothing(r: Rules, q: Request, n: nat)
    requires n <= |r.slots|
    ensures SlotsMissing(r, q, n) == [] <==>
              forall i | 0 <= i < n :: SlotApplies(r, q, r.slots[i]) ==> r.slots[i].name in Available(r, q)
  {
    if n > 0 {
      SlotsMissingNothing(r, q, n - 1);
    }
  }

  lemma NothingMissingIff(r: Rules, q: Request)
    ensures FirstOfEachName(AllMissing(r, q)) == [] <==> Complete(r, q)
  {
    DeclaredMissingNothing(r, q, |r.declared(q.tool)|);
    SlotsMissingNothing(r, q, |r.slots|);
    var pairs := AllMissing(r, q);
    if pairs != [] {
      FirstOfEachNameExact(pairs, pairs[0].0);
      assert Named(pairs, pairs[0].0);
    }
  }

  /** The check: allowed exactly when the call is complete; the missing names are listed once each,
      aligned with their labels. */
  method CheckToolRequirements(r: Rules, q: Request) returns (allowed: bool, missing: seq<string>, labels: seq<string>)
    ensures allowed <==> Complete(r, q)
    ensures allowed <==> missing == []
    ensures |missing| == |labels| == |FirstOfEachName(AllMissing(r, q))|
    ensures forall i | 0 <= i < |missing| :: (missing[i], labels[i]) == FirstOfEachName(AllMissing(r, q))[i]
  {
    var available := KnownNames(r, q);
    var pairs := [];
    var declared := r.declared(q.tool);
    for i := 0 to |declared|
      invariant pairs == DeclaredMissing(r, q, i)
    {
      if declared[i] !in FREE_TEXT {
        if declared[i] !in available {
          pairs := pairs + [(declared[i], LabelFrom(r.slots, declared[i]))];
        }
      }
    }
    ghost var before := pairs;
    for i := 0 to |r.slots|
      invariant pairs == before + SlotsMissing(r, q, i)
    {
      if SlotApplies(r, q, r.slots[i]) {
        if r.slots[i].name !in available {
          pairs := pairs + [(r.slots[i].name, r.slots[i].caption)];
        }
      }
    }
    missing, labels := Unique(pairs);
    NothingMissingIff(r, q);
    allowed := missing == [];
  }

  method KnownNames(r: Rules, q: Request) returns (available: set<string>)
    ensures available == Available(r, q)
  {
    var merged := MergeRequirements(r.texts, [Some(q.extracted), Some(r.extract(q.query)), Some(r.extract(q.conversation))]);
    available := merged.Keys + (ValidKeys(r.texts, q.args) - FREE_TEXT);
  }

  method Unique(pairs: seq<(string, string)>) returns (names: seq<string>, labels: seq<string>)
    ensures |names| == |labels| == |FirstOfEachName(pairs)|
    ensures forall i | 0 <= i < |names| :: (names[i], labels[i]) == FirstOfEachName(pairs)[i]
  {
    names, labels := [], [];
    var seen: set<string> := {};
    for n := 0 to |pairs|
      invariant |names| == |labels| == |FirstOfEachName(pairs[..n])|
      invariant forall i | 0 <= i < |names| :: (names[i], labels[i]) == FirstOfEachName(pairs[..n])[i]
      invariant forall name :: name in seen <==> Named(FirstOfEachName(pairs[..n]), name)
    {
      assert pairs[..n + 1][..n] == pairs[..n];
      ghost var unique := FirstOfEachName(pairs[..n]);
      if pairs[n].0 !in seen {
        seen := seen + {pairs[n].0};
        names, labels := names + [pairs[n].0], labels + [pairs[n].1];
        NamedGrows(unique, pairs[n]);
      }
    }
    assert pairs[..|pairs|] == pairs;
  }

  lemma NamedGrows(pairs: seq<(string, string)>, last: (string, string))
    ensures forall name :: Named(pairs + [last], name) <==> Named(pairs, name) || name == last.0
  {
    forall name ensures Named(pairs + [last], name) <==> Named(pairs, name) || name == last.0 {
      if Named(pairs, name) {
        var i :| 0 <= i < |pairs| && pairs[i].0 == name;
        assert (pairs + [last])[i].0 == name;
      }
      assert (pairs + [last])[|pairs|].0 == last.0;
    }
  }

  // ---- what the check reports ----

  /** A name is known: something extracted says it, or a named argument does that is not free text. */
  predicate Known(r: Rules, q: Request, name: string) {
    || Tells(r.texts, Some(q.extracted), name)
    || Tells(r.texts, Some(r.extract(q.query)), name)
    || Tells(r.texts, Some(r.extract(q.conversation)), name)
    || (Tells(r.texts, Some(q.args), name) && name != "query" && name != "parameters")
  }

  lemma AvailableIsKnown(r: Rules, q: Request, name: string)
    ensures name in Available(r, q) <==> Known(r, q, name)
  {
    MergedOfThree(r.texts, q.extracted, r.extract(q.query), r.extract(q.conversation), name);
    TellsIsValid(r.texts, q.extracted, name);
    TellsIsValid(r.texts, r.extract(q.query), name);
    TellsIsValid(r.texts, r.extract(q.conversation), name);
    TellsIsValid(r.texts, q.args, name);
  }

  lemma TellsIsValid(tx: Texts, source: Source, name: string)
    ensures Tells(tx, Some(source), name) <==> name in ValidKeys(tx, source)
  {
  }

  /** The tool declares the parameter, and it is not free text. */
  predicate Declares(r: Rules, q: Request, n: nat, name: string)
    requires n <= |r.declared(q.tool)|
  {
    name != "query" && name != "parameters" && name in r.declared(q.tool)[..n]
  }

  predicate SlotAsks(r: Rules, q: Request, i: nat, name: string) {
    i < |r.slots| && r.slots[i].name == name && SlotApplies(r, q, r.slots[i])
  }

  /** Of the slots of this name that apply, the i-th is the first. */
  ghost predicate FirstToAsk(r: Rules, q: Request, i: nat, name: string) {
    SlotAsks(r, q, i, name) && forall j | 0 <= j < i :: !SlotAsks(r, q, j, name)
  }

  lemma {:induction false} DeclaredMissingExact(r: Rules, q: Request, n: nat, name: string)
    requires n <= |r.declared(q.tool)|
    ensures Named(DeclaredMissing(r, q, n), name) <==> Declares(r, q, n, name) && !Known(r, q, name)
  {
    if n > 0 {
      DeclaredMissingExact(r, q, n - 1, name);
      var last := r.declared(q.tool)[n - 1];
      assert Declares(r, q, n, name) <==> Declares(r, q, n - 1, name) || (name == last && last !in FREE_TEXT) by {
        assert r.declared(q.tool)[..n] == r.declared(q.tool)[..n - 1] + [last];
      }
      AvailableIsKnown(r, q, last);
      assert DeclaredMissing(r, q, n - 1) + [] == DeclaredMissing(r, q, n - 1);
      NamedOneMore(DeclaredMissing(r, q, n - 1), (last, LabelFrom(r.slots, last)), name);
    }
  }

  lemma {:induction false} DeclaredLabels(r: Rules, q: Request, n: nat, k: nat)
    requires n <= |r.declared(q.tool)| && k < |DeclaredMissing(r, q, n)|
    ensures DeclaredMissing(r, q, n)[k].1 == LabelFrom(r.slots, DeclaredMissing(r, q, n)[k].0)
  {
    if k < |DeclaredMissing(r, q, n - 1)| {
      DeclaredLabels(r, q, n - 1, k);
    }
  }

  lemma NamedOneMore(pairs: seq<(string, string)>, last: (string, string), name: string)
    ensures Named(pairs + [last], name) <==> Named(pairs, name) || name == last.0
  {
    NamedGrows(pairs, last);
  }

  ghost predicate AskedBefore(r: Rules, q: Request, n: nat, name: string) {
    exists i | 0 <= i < n :: SlotAsks(r, q, i, name)
  }

  lemma AskedOneMore(r: Rules, q: Request, n: nat, name: string)
    ensures AskedBefore(r, q, n + 1, name) <==> AskedBefore(r, q, n, name) || SlotAsks(r, q, n, name)
  {
  }

  lemma {:induction false} SlotsMissingExact(r: Rules, q: Request, n: nat, name: string)
    requires n <= |r.slots|
    ensures Named(SlotsMissing(r, q, n), name) <==> AskedBefore(r, q, n, name) && !Known(r, q, name)
  {
    if n > 0 {
      var slot := r.slots[n - 1];
      SlotsMissingExact(r, q, n - 1, name);
      AskedOneMore(r, q, n - 1, name);
      AvailableIsKnown(r, q, slot.name);
      assert SlotsMissing(r, q, n - 1) + [] == SlotsMissing(r, q, n - 1);
      NamedOneMore(SlotsMissing(r, q, n - 1), (slot.name, slot.caption), name);
    }
  }

  /** The pair is the first of its name in the list. */
  ghost predicate FirstNamed(pairs: seq<(string, string)>, i: nat, pair: (string, string)) {
    i < |pairs| && pairs[i] == pair && !Named(pairs[..i], pair.0)
  }

  lemma {:induction false} SlotsMissingFirst(r: Rules, q: Request, n: nat, k: nat, pair: (string, string)) returns (i: nat)
    requires n <= |r.slots| && FirstNamed(SlotsMissing(r, q, n), k, pair)
    ensures FirstToAsk(r, q, i, pair.0) && r.slots[i].caption == pair.1
  {
    var init := SlotsMissing(r, q, n - 1);
    if k < |init| {
      assert SlotsMissing(r, q, n)[..k] == init[..k];
      i := SlotsMissingFirst(r, q, n - 1, k, pair);
    } else {
      i := n - 1;
      assert SlotsMissing(r, q, n)[..k] == init;
      SlotsMissingExact(r, q, n - 1, pair.0);
      AvailableIsKnown(r, q, pair.0);
      assert SlotAsks(r, q, i, pair.0);
    }
  }

  lemma {:induction false} UniqueKeepsFirst(pairs: seq<(string, string)>, k: nat) returns (i: nat)
    requires k < |FirstOfEachName(pairs)|
    ensures FirstNamed(pairs, i, FirstOfEachName(pairs)[k])
  {
    var init := pairs[..|pairs| - 1];
    if k < |FirstOfEachName(init)| {
      i := UniqueKeepsFirst(init, k);
      assert pairs[..i] == init[..i];
    } else {
      i := |pairs| - 1;
      FirstOfEachNameExact(init, pairs[i].0);
    }
  }

  lemma NamedInSum(a: seq<(string, string)>, b: seq<(string, string)>, name: string)
    ensures Named(a + b, name) <==> Named(a, name) || Named(b, name)
  {
    if Named(a, name) {
      var i :| 0 <= i < |a| && a[i].0 == name;
      assert (a + b)[i].0 == name;
    }
    if Named(b, name) {
      var i :| 0 <= i < |b| && b[i].0 == name;
      assert (a + b)[|a| + i].0 == name;
    }
  }

  /** A name is reported missing if and only if it is not known, and the tool declares it or a slot that
      applies asks for it. */
  lemma MissingExactly(r: Rules, q: Request, name: string)
    ensures Named(FirstOfEachName(AllMissing(r, q)), name) <==>
              !Known(r, q, name) && (Declares(r, q, |r.declared(q.tool)|, name) || AskedBefore(r, q, |r.slots|, name))
  {
    FirstOfEachNameExact(AllMissing(r, q), name);
    NamedInSum(DeclaredMissing(r, q, |r.declared(q.tool)|), SlotsMissing(r, q, |r.slots|), name);
    DeclaredMissingExact(r, q, |r.declared(q.tool)|, name);
    SlotsMissingExact(r, q, |r.slots|, name);
  }

  /** The label of a declared parameter is the caption of the last slot of its name, or the name itself;
      that of any other name is the caption of the first slot that asks for it. */
  lemma LabelOfMissing(r: Rules, q: Request, k: nat)
    requires k < |FirstOfEachName(AllMissing(r, q))|
    ensures var (name, caption) := FirstOfEachName(AllMissing(r, q))[k];
            if Declares(r, q, |r.declared(q.tool)|, name) then caption == LabelFrom(r.slots, name)
            else exists i | 0 <= i < |r.slots| :: FirstToAsk(r, q, i, name) && caption == r.slots[i].caption
  {
    var declared, asked := DeclaredMissing(r, q, |r.declared(q.tool)|), SlotsMissing(r, q, |r.slots|);
    var pair := FirstOfEachName(AllMissing(r, q))[k];
    DeclaredMissingExact(r, q, |r.declared(q.tool)|, pair.0);
    MissingExactly(r, q, pair.0);
    assert Named(FirstOfEachName(AllMissing(r, q)), pair.0);
    var i := UniqueKeepsFirst(AllMissing(r, q), k);
    if i < |declared| {
      assert declared[i].0 == pair.0;
      DeclaredLabels(r, q, |r.declared(q.tool)|, i);
    } else {
      assert AllMissing(r, q)[..i] == declared + asked[..i - |declared|];
      NamedInSum(declared, asked[..i - |declared|], pair.0);
      var slot := SlotsMissingFirst(r, q, |r.slots|, i - |declared|, pair);
    }
  }

  /** With the registered slots the slot rule comes to this: a web search that depends on a place
      needs to know which. */
  lemma RegisteredSlotsAskForPlace(r: Rules, q: Request)
    requires r.slots == SLOTS
    ensures Complete(r, q) <==>
              && (forall i | 0 <= i < |r.declared(q.tool)| :: r.declared(q.tool)[i] in Available(r, q) + FREE_TEXT)
              && (q.tool == "web_search" && r.needsPlace(q.query) ==> "location" in Available(r, q))
  {
    assert SLOTS[0].name == "location" && SLOTS[0].requiredFor == {"web_search"};
    assert SlotApplies(r, q, SLOTS[0]) <==> q.tool == "web_search" && r.needsPlace(q.query);
    forall i | 0 < i < |SLOTS| ensures !SlotApplies(r, q, SLOTS[i]) {
    }
  }

  /** Supplying more extracted requirements never turns an allowed call into a blocked one. */
  lemma MoreExtractedNeverBlocks(r: Rules, q: Request, more: Source)
    requires ValidKeys(r.texts, q.extracted) <= ValidKeys(r.texts, more)
    requires Complete(r, q)
    ensures Complete(r, q.(extracted := more))
  {
    var q' := q.(extracted := more);
    forall key | key in Available(r, q) ensures key in Available(r, q') {
      if key in Merged(r.texts, [Some(q.extracted), Some(r.extract(q.query)), Some(r.extract(q.conversation))]) {
        MergedOfThree(r.texts, q.extracted, r.extract(q.query), r.extract(q.conversation), key);
        MergedOfThree(r.texts, more, r.extract(q.query), r.extract(q.conversation), key);
      }
    }
  }

  lemma MergedOfThree(tx: Texts, a: Source, b: Source, c: Source, key: string)
    ensures key in Merged(tx, [Some(a), Some(b), Some(c)]) <==>
              key in ValidKeys(tx, a) || key in ValidKeys(tx, b) || key in ValidKeys(tx, c)
  {
    var one, two, three := [Some(a)], [Some(a), Some(b)], [Some(a), Some(b), Some(c)];
    assert one[..0] == [] && two[..1] == one && three[..2] == two;
    assert Merged(tx, one) == Overlay(tx, map[], a);
    assert Merged(tx, two) == Overlay(tx, Merged(tx, one), b);
    assert Merged(tx, three) == Overlay(tx, Merged(tx, two), c);
  }
}
