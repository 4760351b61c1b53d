/**
  `add_dep`: add or update one dependency declaration in a workflow's
  `Dependencies` hint, in place. The hints are either a list of hint
  objects, each with a `class`, or a mapping from class to hint object;
  the mapping is kept as a sequence of hints in key order, with the key as
  the hint's class.
 */
module AddDependency {
  import opened Base
  import opened Namespaces

  /** A hint with its `class` (the key, in mapping form) and its `dependencies` list. */
  datatype Hint = Hint(cls: string, dependencies: seq<Dep>)

  /** The value of `hints`: a list, a mapping, or something `_add` does not touch. */
  datatype Hints = HintList(items: seq<Hint>) | HintMap(items: seq<Hint>) | OtherHints

  /** The class `_add` writes for a hint it creates. */
  const DEPENDENCIES_CLASS := "dep:Dependencies"

  // ---------------------------------------------------------------------
  // The edit, as values

  /** The declaration `_add` writes: always `upstream`; `version` and
      `installTo` only when the arguments are truthy. */
  function NewDep(upstream: string, setVersion: Option<string>, installTo: Option<string>): (obj: Dep)
    ensures obj.upstream == upstream
    ensures obj.version.Some? <==> Truthy(setVersion)
    ensures obj.installTo.Some? <==> Truthy(installTo)
    ensures obj.version.Some? ==> obj.version == setVersion
    ensures obj.installTo.Some? ==> obj.installTo == installTo
  {
    Dep(upstream, if Truthy(setVersion) then setVersion else None, if Truthy(installTo) then installTo else None)
  }

  /** `u.update(obj)`: the keys `obj` has overwrite those of `u`. */
  function Merge(u: Dep, obj: Dep): Dep {
    Dep(obj.upstream,
        if obj.version.Some? then obj.version else u.version,
        if obj.installTo.Some? then obj.installTo else u.installTo)
  }

  /** The test `_add` applies to each hint class: does it expand, with the
      document's namespaces, to the `Dependencies` extension? */
  function DependenciesTest(namespaces: map<string, string>): string -> bool {
    cls => ExpandNs(namespaces, cls) == CWLDEP_DEPENDENCIES_URL
  }

  /** The first hint whose class passes the test. */
  function FirstDependenciesHint(isDeps: string -> bool, items: seq<Hint>): (r: Option<nat>)
    ensures r.Some? ==> r.value < |items| && isDeps(items[r.value].cls)
    ensures r.Some? ==> forall j :: 0 <= j < r.value ==> !isDeps(items[j].cls)
    ensures r.None? ==> forall j :: 0 <= j < |items| ==> !isDeps(items[j].cls)
  {
    if items == [] then None
    else if isDeps(items[0].cls) then Some(0)
    else match FirstDependenciesHint(isDeps, items[1..])
      case None => None
      case Some(i) => Some(i + 1)
  }

  /** The first declaration with the given upstream. */
  function FirstWithUpstream(deps: seq<Dep>, upstream: string): (r: Option<nat>)
    ensures r.Some? ==> r.value < |deps| && deps[r.value].upstream == upstream
    ensures r.Some? ==> forall j :: 0 <= j < r.value ==> deps[j].upstream != upstream
    ensures r.None? ==> forall j :: 0 <= j < |deps| ==> deps[j].upstream != upstream
  {
    if deps == [] then None
    else if deps[0].upstream == upstream then Some(0)
    else match FirstWithUpstream(deps[1..], upstream)
      case None => None
      case Some(i) => Some(i + 1)
  }

  /** A dependency list after `_add`: the first entry with the same upstream
      is updated in place, otherwise the declaration is appended. */
  function AddToDeps(deps: seq<Dep>, obj: Dep): seq<Dep> {
    match FirstWithUpstream(deps, obj.upstream)
    case Some(j) => deps[j := Merge(deps[j], obj)]
    case None => deps + [obj]
  }

  /** `hints[key] = {"dependencies": deps}` on a mapping kept in key order. */
  function SetKey(items: seq<Hint>, key: string, deps: seq<Dep>): seq<Hint> {
    match FirstClass(items, key)
    case Some(j) => items[j := Hint(key, deps)]
    case None => items + [Hint(key, deps)]
  }

  function FirstClass(items: seq<Hint>, cls: string): (r: Option<nat>)
    ensures r.Some? ==> r.value < |items| && items[r.value].cls == cls
    ensures r.None? ==> forall j :: 0 <= j < |items| ==> items[j].cls != cls
  {
    if items == [] then None
    else if items[0].cls == cls then Some(0)
    else match FirstClass(items[1..], cls)
      case None => None
      case Some(i) => Some(i + 1)
  }

  /** `hints` after `_add`, for a given class test: a missing value becomes
      an empty mapping first (`setdefault`). */
  function AddToHintsBy(isDeps: string -> bool, hints: Option<Hints>, obj: Dep): Hints {
    match if hints.None? then HintMap([]) else hints.value
    case HintList(items) => HintList(AddToItems(isDeps, items, obj, items + [Hint(DEPENDENCIES_CLASS, [obj])]))
    case HintMap(items) => HintMap(AddToItems(isDeps, items, obj, SetKey(items, DEPENDENCIES_CLASS, [obj])))
    case OtherHints => OtherHints
  }

  /** The hints after `_add` when they are a list or a mapping: the first hint
      that passes the test gets the dependency; when none does, `added` (the
      hints with a new `Dependencies` hint) replaces them. */
  function AddToItems(isDeps: string -> bool, items: seq<Hint>, obj: Dep, added: seq<Hint>): seq<Hint> {
    match FirstDependenciesHint(isDeps, items)
    case Some(i) => items[i := items[i].(dependencies := AddToDeps(items[i].dependencies, obj))]
    case None => added
  }

  /** `hints` after `_add` with the namespaces the document was loaded with. */
  function AddToHints(namespaces: map<string, string>, hints: Option<Hints>, obj: Dep): Hints {
    AddToHintsBy(DependenciesTest(namespaces), hints, obj)
  }

  /** With `dep` bound to the cwldep namespace, the class `_add` writes passes the test. */
  lemma DependenciesClassPasses(namespaces: map<string, string>)
    requires "dep" in namespaces && namespaces["dep"] == CWLDEP_URL
    ensures DependenciesTest(namespaces)(DEPENDENCIES_CLASS)
  {
    var cls := "dep" + [':'] + "Dependencies";
    assert cls == DEPENDENCIES_CLASS;
    assert ExpandNs(namespaces, cls) == CWLDEP_URL + "Dependencies" by {
      ExpandKnownPrefix(namespaces, "dep", "Dependencies");
    }
  }

  // ---------------------------------------------------------------------
  // What the edit guarantees

  predicate UniqueUpstreams(deps: seq<Dep>) {
    forall i, j :: 0 <= i < j < |deps| ==> deps[i].upstream != deps[j].upstream
  }

  /** The list grows by one exactly when the upstream is new; the entry for
      the upstream carries the new declaration's keys and keeps those it does
      not set; nothing else changes; and no duplicate upstream appears. */
  lemma AddToDepsSpec(deps: seq<Dep>, obj: Dep)
    ensures var r := AddToDeps(deps, obj);
      && (|r| == |deps| + 1 <==> forall j :: 0 <= j < |deps| ==> deps[j].upstream != obj.upstream)
      && (|r| == |deps| || |r| == |deps| + 1)
      && (forall j :: 0 <= j < |deps| && deps[j].upstream != obj.upstream ==> r[j] == deps[j])
      && (exists k :: 0 <= k < |r| && r[k].upstream == obj.upstream && Merge(r[k], obj) == r[k])
      && (forall j :: 0 <= j < |deps| ==>
            && (obj.version.None? ==> r[j].version == deps[j].version)
            && (obj.installTo.None? ==> r[j].installTo == deps[j].installTo))
    ensures UniqueUpstreams(deps) ==> UniqueUpstreams(AddToDeps(deps, obj))
  {
    var r := AddToDeps(deps, obj);
    match FirstWithUpstream(deps, obj.upstream)
    case Some(j) =>
      assert r[j].upstream == obj.upstream && Merge(r[j], obj) == r[j];
    case None =>
      assert r[|deps|] == obj && Merge(obj, obj) == obj;
  }

  /** Adding the same declaration again changes nothing. */
  lemma AddToDepsTwice(deps: seq<Dep>, obj: Dep)
    ensures AddToDeps(AddToDeps(deps, obj), obj) == AddToDeps(deps, obj)
  {
    var r := AddToDeps(deps, obj);
    match FirstWithUpstream(deps, obj.upstream)
    case Some(j) =>
      assert FirstWithUpstream(r, obj.upstream) == Some(j) by {
        FirstWithUpstreamAt(r, obj.upstream, j);
      }
    case None =>
      assert FirstWithUpstream(r, obj.upstream) == Some(|deps|) by {
        FirstWithUpstreamAt(r, obj.upstream, |deps|);
      }
  }

  /** The index met by a scan that skipped only other upstreams is the first match. */
  lemma {:induction false} FirstWithUpstreamAt(deps: seq<Dep>, upstream: string, k: nat)
    requires k < |deps| && deps[k].upstream == upstream
    requires forall j :: 0 <= j < k ==> deps[j].upstream != upstream
    ensures FirstWithUpstream(deps, upstream) == Some(k)
  {
    if k > 0 {
      FirstWithUpstreamAt(deps[1..], upstream, k - 1);
    }
  }

  /** The index met by a scan that skipped only failing hints is the first match. */
  lemma {:induction false} FirstDependenciesHintAt(isDeps: string -> bool, items: seq<Hint>, i: nat)
    requires i < |items| && isDeps(items[i].cls)
    requires forall j :: 0 <= j < i ==> !isDeps(items[j].cls)
    ensures FirstDependenciesHint(isDeps, items) == Some(i)
  {
    if i > 0 {
      FirstDependenciesHintAt(isDeps, items[1..], i - 1);
    }
  }

  /** The hints as a sequence, whichever form they take. */
  function Items(h: Hints): seq<Hint> {
    if h.OtherHints? then [] else h.items
  }

  /** A workflow without hints gains a mapping with one `dep:Dependencies`
      hint whose list is exactly the new declaration. */
  lemma AddToNoHints(namespaces: map<string, string>, obj: Dep)
    ensures AddToHints(namespaces, None, obj) == HintMap([Hint(DEPENDENCIES_CLASS, [obj])])
    ensures AddToHints(namespaces, Some(HintMap([])), obj) == HintMap([Hint(DEPENDENCIES_CLASS, [obj])])
  {
  }

  /** At most one dependency list changes, and the form of the hints is
      kept. When a hint passes the test, the first such hint gets the
      declaration (appended, or merged into the entry with the same upstream)
      and nothing else changes. When none does, a list gains a last
      `dep:Dependencies` hint holding just the declaration; a mapping sets
      that key to just the declaration, in place when the key is already
      there and as a new last entry otherwise. */
  lemma AddChangesOneList(isDeps: string -> bool, hints: Hints, obj: Dep)
    requires !hints.OtherHints?
    ensures var after := AddToHintsBy(isDeps, Some(hints), obj);
      var before := Items(hints);
      && after.HintList? == hints.HintList?
      && after.HintMap? == hints.HintMap?
      && (FirstDependenciesHint(isDeps, before).Some? ==>
            var i := FirstDependenciesHint(isDeps, before).value;
            && ChangedOnlyAt(before, Items(after), i, obj, hints.HintList?)
            && Items(after)[i].dependencies == AddToDeps(before[i].dependencies, obj))
      && (FirstDependenciesHint(isDeps, before).None? && hints.HintList? ==>
            ChangedOnlyAt(before, Items(after), |before|, obj, true))
      && (FirstDependenciesHint(isDeps, before).None? && hints.HintMap? ==>
            var k := if FirstClass(before, DEPENDENCIES_CLASS).Some? then FirstClass(before, DEPENDENCIES_CLASS).value
                     else |before|;
            && ChangedOnlyAt(before, Items(after), k, obj, false)
            && Items(after)[k].dependencies == [obj])
  {
  }

  /** `after` differs from `before` only at `k`, and has the same length unless
      `k` is a new last position: either a hint of `before` that keeps its
      class and whose list became the declaration added to it, or, in mapping
      form only, the `dep:Dependencies` key set to just the declaration; or a
      new last `dep:Dependencies` hint with just the declaration. */
  ghost predicate ChangedOnlyAt(before: seq<Hint>, after: seq<Hint>, k: nat, obj: Dep, isList: bool) {
    && k <= |before|
    && |after| == (if k < |before| then |before| else |before| + 1)
    && (forall i :: 0 <= i < |before| && i != k ==> after[i] == before[i])
    && (if k < |before|
        then after[k].cls == before[k].cls &&
             (|| after[k].dependencies == AddToDeps(before[k].dependencies, obj)
              || (!isList && before[k].cls == DEPENDENCIES_CLASS && after[k].dependencies == [obj]))
        else after[k] == Hint(DEPENDENCIES_CLASS, [obj]))
  }

  /** Two class tests give the same verdict on the class of every hint. */
  predicate SameVerdicts(first: string -> bool, second: string -> bool, items: seq<Hint>) {
    forall j :: 0 <= j < |items| ==> first(items[j].cls) == second(items[j].cls)
  }

  /** The hints a list or mapping holds; none for anything else. */
  function HintsOf(hints: Option<Hints>): seq<Hint> {
    if hints.None? || hints.value.OtherHints? then [] else hints.value.items
  }

  /** A second `_add` of the same declaration, with a test that the created
      class passes and that agrees with the first test on the hints the
      first `_add` saw, changes nothing: the declaration is never duplicated. */
  lemma AddTwiceIsIdempotent(first: string -> bool, second: string -> bool, hints: Option<Hints>, obj: Dep)
    requires second(DEPENDENCIES_CLASS)
    requires SameVerdicts(first, second, HintsOf(hints))
    ensures AddToHintsBy(second, Some(AddToHintsBy(first, hints, obj)), obj) == AddToHintsBy(first, hints, obj)
  {
    match if hints.None? then HintMap([]) else hints.value
    case OtherHints =>
    case HintList(items) =>
      var added := items + [Hint(DEPENDENCIES_CLASS, [obj])];
      AddToItemsTwice(first, second, items, obj, added,
                      AddToItems(first, items, obj, added) + [Hint(DEPENDENCIES_CLASS, [obj])]);
    case HintMap(items) =>
      if FirstDependenciesHint(first, items).None? {
        NoDependenciesHintAppends(first, second, items, [obj]);
      }
      var added := SetKey(items, DEPENDENCIES_CLASS, [obj]);
      var after := AddToItems(first, items, obj, added);
      AddToItemsTwice(first, second, items, obj, added, SetKey(after, DEPENDENCIES_CLASS, [obj]));
  }

  /** The list form of `AddTwiceIsIdempotent`: when no hint passes the first
      test, the new hints end with a `Dependencies` hint holding only `obj`. */
  lemma AddToItemsTwice(first: string -> bool, second: string -> bool, items: seq<Hint>, obj: Dep,
                        added: seq<Hint>, again: seq<Hint>)
    requires second(DEPENDENCIES_CLASS) && SameVerdicts(first, second, items)
    requires FirstDependenciesHint(first, items).None? ==> added == items + [Hint(DEPENDENCIES_CLASS, [obj])]
    ensures AddToItems(second, AddToItems(first, items, obj, added), obj, again) == AddToItems(first, items, obj, added)
  {
    match FirstDependenciesHint(first, items)
    case Some(i) =>
      var newItems := items[i := items[i].(dependencies := AddToDeps(items[i].dependencies, obj))];
      assert second(newItems[i].cls);
      FirstDependenciesHintAt(second, newItems, i);
      AddToDepsTwice(items[i].dependencies, obj);
      assert newItems[i := newItems[i].(dependencies := AddToDeps(newItems[i].dependencies, obj))] == newItems;
    case None =>
      var n := |items|;
      FirstDependenciesHintAt(second, added, n);
      assert AddToDeps([obj], obj) == [obj] by {
        FirstWithUpstreamAt([obj], obj.upstream, 0);
      }
      assert added[n := added[n].(dependencies := AddToDeps(added[n].dependencies, obj))] == added;
  }

  /** When no hint passes the first test, and the second test (which the
      `Dependencies` class passes) agrees with it on every hint, no hint has
      that class, so setting it appends a new hint. */
  lemma NoDependenciesHintAppends(first: string -> bool, second: string -> bool, items: seq<Hint>, deps: seq<Dep>)
    requires second(DEPENDENCIES_CLASS) && SameVerdicts(first, second, items)
    requires FirstDependenciesHint(first, items).None?
    ensures SetKey(items, DEPENDENCIES_CLASS, deps) == items + [Hint(DEPENDENCIES_CLASS, deps)]
  {
    assert forall j :: 0 <= j < |items| ==> items[j].cls != DEPENDENCIES_CLASS by {
      forall j | 0 <= j < |items|
        ensures items[j].cls != DEPENDENCIES_CLASS
      {
        assert !first(items[j].cls);
      }
    }
    assert FirstClass(items, DEPENDENCIES_CLASS).None?;
  }

  /** `add_dep` binds `dep` only after `_add` ran, so a second `add_dep` of
      the same declaration tests the classes with `dep` bound. When the
      binding does not change the verdict on any hint the first `add_dep`
      saw (in particular when `dep` was already bound to the cwldep
      namespace), the second leaves the hints as the first did. */
  lemma SecondAddDepIsIdempotent(namespaces: map<string, string>, hints: Option<Hints>, obj: Dep)
    requires SameVerdicts(DependenciesTest(namespaces), DependenciesTest(namespaces["dep" := CWLDEP_URL]), HintsOf(hints))
    ensures AddToHints(namespaces["dep" := CWLDEP_URL], Some(AddToHints(namespaces, hints, obj)), obj) ==
      AddToHints(namespaces, hints, obj)
  {
    DependenciesClassPasses(namespaces["dep" := CWLDEP_URL]);
    AddTwiceIsIdempotent(DependenciesTest(namespaces), DependenciesTest(namespaces["dep" := CWLDEP_URL]), hints, obj);
  }

  /** With `dep` already bound to the cwldep namespace, binding it again
      changes no verdict. */
  lemma BoundDepKeepsVerdicts(namespaces: map<string, string>, hints: Option<Hints>)
    requires "dep" in namespaces && namespaces["dep"] == CWLDEP_URL
    ensures SameVerdicts(DependenciesTest(namespaces), DependenciesTest(namespaces["dep" := CWLDEP_URL]), HintsOf(hints))
  {
    assert namespaces["dep" := CWLDEP_URL] == namespaces;
  }

  /** With `dep` unbound, the class `_add` writes is not recognised. */
  lemma UnboundDepFailsTest(namespaces: map<string, string>)
    requires "dep" !in namespaces
    ensures !DependenciesTest(namespaces)(DEPENDENCIES_CLASS)
  {
    var cls := "dep" + ":" + "Dependencies";
    assert cls == DEPENDENCIES_CLASS;
    assert ExpandNs(namespaces, cls) == cls by {
      ExpandUnknownColonPrefix(namespaces, "dep", "Dependencies");
    }
    assert cls[0] != CWLDEP_DEPENDENCIES_URL[0];
  }

  /** A `Dependencies` hint the first test misses and the second recognises
      gets a second hint from the first `_add` and the declaration itself
      from the second. */
  lemma RecognisedOnlyLater(first: string -> bool, second: string -> bool, a: Dep, obj: Dep)
    requires !first(DEPENDENCIES_CLASS) && second(DEPENDENCIES_CLASS) && a.upstream != obj.upstream
    ensures var once := AddToHintsBy(first, Some(HintList([Hint(DEPENDENCIES_CLASS, [a])])), obj);
      && once == HintList([Hint(DEPENDENCIES_CLASS, [a]), Hint(DEPENDENCIES_CLASS, [obj])])
      && AddToHintsBy(second, Some(once), obj) ==
           HintList([Hint(DEPENDENCIES_CLASS, [a, obj]), Hint(DEPENDENCIES_CLASS, [obj])])
  {
    var items := [Hint(DEPENDENCIES_CLASS, [a])];
    assert FirstDependenciesHint(first, items) == None;
    var once := items + [Hint(DEPENDENCIES_CLASS, [obj])];
    FirstDependenciesHintAt(second, once, 0);
    assert FirstWithUpstream([a], obj.upstream) == None;
    assert AddToDeps([a], obj) == [a, obj];
  }

  /** Without that agreement a second `add_dep` can change the hints: with
      `dep` unbound, a `dep:Dependencies` hint is not recognised, so the first
      `add_dep` appends a second one; the next `add_dep`, with `dep` bound,
      recognises the first hint and adds the declaration there as well. */
  lemma SecondAddDepAfterBindingDiffers(namespaces: map<string, string>, a: Dep, obj: Dep)
    requires "dep" !in namespaces && a.upstream != obj.upstream
    ensures var once := AddToHints(namespaces, Some(HintList([Hint(DEPENDENCIES_CLASS, [a])])), obj);
      && once == HintList([Hint(DEPENDENCIES_CLASS, [a]), Hint(DEPENDENCIES_CLASS, [obj])])
      && AddToHints(namespaces["dep" := CWLDEP_URL], Some(once), obj) ==
           HintList([Hint(DEPENDENCIES_CLASS, [a, obj]), Hint(DEPENDENCIES_CLASS, [obj])])
  {
    UnboundDepFailsTest(namespaces);
    DependenciesClassPasses(namespaces["dep" := CWLDEP_URL]);
    RecognisedOnlyLater(DependenciesTest(namespaces), DependenciesTest(namespaces["dep" := CWLDEP_URL]), a, obj);
  }

  /** In mapping form, when no key passes the test, `dep:Dependencies` is
      assigned outright: an entry under that key which the test did not
      recognise (with `dep` unbound) loses its declarations. */
  lemma MapFormReplacesUnrecognisedHint(namespaces: map<string, string>, a: Dep, obj: Dep)
    requires "dep" !in namespaces
    ensures AddToHints(namespaces, Some(HintMap([Hint(DEPENDENCIES_CLASS, [a])])), obj) ==
      HintMap([Hint(DEPENDENCIES_CLASS, [obj])])
  {
    UnboundDepFailsTest(namespaces);
    UnrecognisedKeyReplaced(DependenciesTest(namespaces), a, obj);
  }

  lemma UnrecognisedKeyReplaced(isDeps: string -> bool, a: Dep, obj: Dep)
    requires !isDeps(DEPENDENCIES_CLASS)
    ensures AddToHintsBy(isDeps, Some(HintMap([Hint(DEPENDENCIES_CLASS, [a])])), obj) ==
      HintMap([Hint(DEPENDENCIES_CLASS, [obj])])
  {
    var items := [Hint(DEPENDENCIES_CLASS, [a])];
    assert FirstDependenciesHint(isDeps, items) == None;
    assert FirstClass(items, DEPENDENCIES_CLASS) == Some(0);
  }

  // ---------------------------------------------------------------------
  // The source as written

  /** As written, `_add` compares each hint's expanded class with
      `DEP_NAMESPACE_URL`, which the module never binds: the first comparison
      raises NameError (`None`), so only a workflow without hints gets the
      declaration. */
  function AddToHintsAsWritten(hints: Option<Hints>, obj: Dep): Option<Hints> {
    match if hints.None? then HintMap([]) else hints.value
    case HintList(items) => if items == [] then Some(HintList([Hint(DEPENDENCIES_CLASS, [obj])])) else None
    case HintMap(items) => if items == [] then Some(HintMap([Hint(DEPENDENCIES_CLASS, [obj])])) else None
    case OtherHints => Some(OtherHints)
  }

  /** The as-written edit fails on every workflow that has hints; where it
      does not fail it agrees with the corrected edit. */
  lemma AddAsWrittenFailsWithHints(namespaces: map<string, string>, hints: Option<Hints>, obj: Dep)
    ensures AddToHintsAsWritten(hints, obj).None? <==>
      hints.Some? && !hints.value.OtherHints? && hints.value.items != []
    ensures AddToHintsAsWritten(hints, obj).Some? ==>
      AddToHintsAsWritten(hints, obj).value == AddToHints(namespaces, hints, obj)
  {
  }

  /** A concrete case: a list holding an empty `dep:Dependencies` hint, which
      the corrected edit extends with the declaration. */
  lemma AddAsWrittenExample(namespaces: map<string, string>, obj: Dep)
    requires "dep" in namespaces && namespaces["dep"] == CWLDEP_URL
    ensures var hints := Some(HintList([Hint(DEPENDENCIES_CLASS, [])]));
      && AddToHintsAsWritten(hints, obj) == None
      && AddToHints(namespaces, hints, obj) == HintList([Hint(DEPENDENCIES_CLASS, [obj])])
  {
    DependenciesClassPasses(namespaces);
    AddToEmptyDependenciesHint(DependenciesTest(namespaces), obj);
  }

  lemma AddToEmptyDependenciesHint(isDeps: string -> bool, obj: Dep)
    requires isDeps(DEPENDENCIES_CLASS)
    ensures AddToHintsBy(isDeps, Some(HintList([Hint(DEPENDENCIES_CLASS, [])])), obj) ==
      HintList([Hint(DEPENDENCIES_CLASS, [obj])])
  {
    var items := [Hint(DEPENDENCIES_CLASS, [])];
    FirstDependenciesHintAt(isDeps, items, 0);
    assert AddToDeps([], obj) == [obj];
    assert items[0 := items[0].(dependencies := [obj])] == [Hint(DEPENDENCIES_CLASS, [obj])];
  }

  // ---------------------------------------------------------------------
  // The workflow object, edited in place

  /** The parts of the workflow document `add_dep` reads and writes. */
  class Workflow {
    var hints: Option<Hints>
    var namespaces: map<string, string>
    var id: Option<string>

    constructor (hints: Option<Hints>, namespaces: map<string, string>, id: Option<string>)
      ensures this.hints == hints && this.namespaces == namespaces && this.id == id
    {
      this.hints := hints;
      this.namespaces := namespaces;
      this.id := id;
    }

    /** `_add(wf)` with the namespaces the document was loaded with. */
    method AddHint(upstream: string, setVersion: Option<string>, installTo: Option<string>)
      modifies this
      ensures hints == Some(AddToHints(old(namespaces), old(hints), NewDep(upstream, setVersion, installTo)))
      ensures namespaces == old(namespaces) && id == old(id)
    {
      if hints.None? {
        hints := Some(HintMap([]));
      }
      var obj := Dep(upstream, None, None);
      if Truthy(setVersion) {
        obj := obj.(version := setVersion);
      }
      if Truthy(installTo) {
        obj := obj.(installTo := installTo);
      }
      var isDeps := DependenciesTest(namespaces);
      match hints.value
      case OtherHints =>
      case HintList(items) =>
        var updated := UpdateItems(isDeps, items, obj, items + [Hint(DEPENDENCIES_CLASS, [obj])]);
        hints := Some(HintList(updated));
      case HintMap(items) =>
        var updated := UpdateItems(isDeps, items, obj, SetKey(items, DEPENDENCIES_CLASS, [obj]));
        hints := Some(HintMap(updated));
    }
  }

  /** Finds the first `Dependencies` hint and updates or appends the
      dependency in it; `added` is the result when there is none. */
  method UpdateItems(isDeps: string -> bool, items: seq<Hint>, obj: Dep, added: seq<Hint>) returns (r: seq<Hint>)
    ensures r == AddToItems(isDeps, items, obj, added)
  {
    var i := FindDependenciesHint(isDeps, items);
    if i < |items| {
      var deps := UpdateOrAppend(items[i].dependencies, obj);
      r := items[i := items[i].(dependencies := deps)];
    } else {
      r := added;
    }
  }

  /** The loop over the hints: the index of the first hint whose class passes
      the test, or the number of hints when none does. */
  method FindDependenciesHint(isDeps: string -> bool, items: seq<Hint>) returns (i: nat)
    ensures i <= |items|
    ensures i < |items| <==> FirstDependenciesHint(isDeps, items).Some?
    ensures i < |items| ==> FirstDependenciesHint(isDeps, items) == Some(i)
  {
    i := 0;
    while i < |items| && !isDeps(items[i].cls)
      invariant i <= |items|
      invariant forall j :: 0 <= j < i ==> !isDeps(items[j].cls)
    {
      i := i + 1;
    }
    if i < |items| {
      FirstDependenciesHintAt(isDeps, items, i);
    }
  }

  /** The inner loop of `_add`: update the first entry with the same upstream
      and stop, or append the declaration after the loop. */
  method UpdateOrAppend(deps: seq<Dep>, obj: Dep) returns (r: seq<Dep>)
    ensures r == AddToDeps(deps, obj)
  {
    var k := 0;
    while k < |deps|
      invariant k <= |deps|
      invariant forall j :: 0 <= j < k ==> deps[j].upstream != obj.upstream
    {
      if deps[k].upstream == obj.upstream {
        FirstWithUpstreamAt(deps, obj.upstream, k);
        return deps[k := Merge(deps[k], obj)];
      }
      k := k + 1;
    }
    r := deps + [obj];
  }

  /** `add_dep` on a loaded workflow: `_add`, then `$namespaces["dep"]` is set
      to the cwldep namespace and `id` is deleted; `ok` is false when there
      was no `id`, where `del` raises KeyError and nothing is written back. */
  method AddDep(wf: Workflow, upstream: string, setVersion: Option<string>, installTo: Option<string>)
    returns (ok: bool)
    modifies wf
    ensures wf.hints == Some(AddToHints(old(wf.namespaces), old(wf.hints), NewDep(upstream, setVersion, installTo)))
    ensures wf.namespaces == old(wf.namespaces)["dep" := CWLDEP_URL]
    ensures wf.id == None
    ensures ok <==> old(wf.id).Some?
  {
    wf.AddHint(upstream, setVersion, installTo);
    wf.namespaces := wf.namespaces["dep" := CWLDEP_URL];
    ok := wf.id.Some?;
    wf.id := None;
  }
}
