/**
 Loading a topology with its includes (src/compose.rs, `load_topology_inner`, `merge_in`).

 The file system is a finite map from canonical paths to parsed schemas. Loading is proved
 to succeed exactly on include trees without repetition whose files declare different
 signals, and then to return the preorder merge of the tree.
 */
module Includes {
  import opened Wrappers
  import opened Schema
  import opened Errors
  import opened Compose
  import opened Resolution

  /**
   `files` holds the readable, well-formed files by canonical path; `canonical` resolves a
   path, if it exists; `sibling(p, i)` is the path that an include `i` in the file at `p` means.
   */
  datatype FileSystem = FileSystem(
    files: map<string, TopologySchema>,
    canonical: string -> Option<string>,
    sibling: (string, string) -> string)

  // ---- Merging -------------------------------------------------------------------------

  predicate HasId(signals: seq<SignalDef>, id: string) {
    exists s :: s in signals && s.id == id
  }

  /** The first id of `sub` that `acc` has too. */
  function Clash(acc: seq<SignalDef>, sub: seq<SignalDef>): Option<string> {
    if sub == [] then None else if HasId(acc, sub[0].id) then Some(sub[0].id) else Clash(acc, sub[1..])
  }

  function MergeComponents(acc: Option<map<string, ComponentDef>>,
                           sub: Option<map<string, ComponentDef>>): Option<map<string, ComponentDef>> {
    match (acc, sub)
    case (_, None) => acc
    case (None, Some(_)) => sub
    case (Some(a), Some(b)) => Some(a + b)
  }

  /** `sub` appended to `acc`; a component of `sub` replaces one of the same name, its instances are dropped. */
  function Combine(acc: TopologySchema, sub: TopologySchema): TopologySchema {
    acc.(signals := acc.signals + sub.signals,
         transitions := acc.transitions + sub.transitions,
         reactions := acc.reactions + sub.reactions,
         components := MergeComponents(acc.components, sub.components))
  }

  function Merge(acc: TopologySchema, sub: TopologySchema): Maybe<TopologySchema> {
    match Clash(acc.signals, sub.signals)
    case Some(id) => Failure(DuplicateSignalAfterExpand(id))
    case None => Success(Combine(acc, sub))
  }

  method MergeIn(acc: TopologySchema, sub: TopologySchema) returns (r: Maybe<TopologySchema>)
    ensures r == Merge(acc, sub)
  {
    for i := 0 to |sub.signals|
      invariant Clash(acc.signals, sub.signals) == Clash(acc.signals, sub.signals[i..])
    {
      if HasId(acc.signals, sub.signals[i].id) {
        return Failure(DuplicateSignalAfterExpand(sub.signals[i].id));
      }
    }
    var components := acc.components;
    if sub.components.Some? {
      var base := if components.Some? then components.value else map[];
      components := Some(base + sub.components.value);
      assert map[] + sub.components.value == sub.components.value;
    }
    return Success(acc.(signals := acc.signals + sub.signals, transitions := acc.transitions + sub.transitions,
                        reactions := acc.reactions + sub.reactions, components := components));
  }

  // ---- Loading -------------------------------------------------------------------------

  lemma FewerUnseen(all: set<string>, seen: set<string>, seen': set<string>)
    requires seen <= seen'
    ensures |all - seen'| <= |all - seen|
    ensures (exists c :: c in all && c in seen' && c !in seen) ==> |all - seen'| < |all - seen|
  {
    if exists c :: c in all && c in seen' && c !in seen {
      var c :| c in all && c in seen' && c !in seen;
      assert all - seen' <= all - seen - {c};
      Subset(all - seen', all - seen - {c});
    } else {
      Subset(all - seen', all - seen);
    }
  }

  lemma {:induction false} Subset(a: set<string>, b: set<string>)
    requires a <= b
    ensures |a| <= |b|
  {
    if a != {} {
      var x :| x in a;
      Subset(a - {x}, b - {x});
    }
  }

  /** The result of loading the file at `path`, and the files seen by then. */
  function Load(fs: FileSystem, path: string, seen: set<string>): (r: (Maybe<TopologySchema>, set<string>))
    ensures seen <= r.1
    decreases |fs.files.Keys - seen|, 0, 0
  {
    match fs.canonical(path)
    case None => (Failure(IncludeNotFound(path)), seen)
    case Some(c) =>
      if c !in fs.files then (Failure(IncludeNotFound(path)), seen)
      else if c in seen then (Failure(IncludeCycle(path)), seen)
      else
        FewerUnseen(fs.files.Keys, seen, seen + {c});
        LoadAll(fs, path, fs.files[c].(includes := []), fs.files[c].includes, seen + {c})
  }

  /** Loads the includes `incs` of the file at `path` in order and merges them into `merged`. */
  function LoadAll(fs: FileSystem, path: string, merged: TopologySchema, incs: seq<string>,
                   seen: set<string>): (r: (Maybe<TopologySchema>, set<string>))
    ensures seen <= r.1
    decreases |fs.files.Keys - seen|, 1, |incs|
  {
    if incs == [] then (Success(merged), seen)
    else
      var (sub, seen1) := Load(fs, fs.sibling(path, incs[0]), seen);
      FewerUnseen(fs.files.Keys, seen, seen1);
      match sub
      case Failure(e) => (Failure(e), seen1)
      case Success(s) =>
        match Merge(merged, s)
        case Failure(e) => (Failure(e), seen1)
        case Success(merged1) => LoadAll(fs, path, merged1, incs[1..], seen1)
  }

  method LoadTopologyInner(fs: FileSystem, path: string, seen: set<string>)
    returns (r: Maybe<TopologySchema>, seen': set<string>)
    ensures (r, seen') == Load(fs, path, seen)
    decreases |fs.files.Keys - seen|
  {
    var canonical := fs.canonical(path);
    if canonical.None? || canonical.value !in fs.files {
      return Failure(IncludeNotFound(path)), seen;
    }
    var c := canonical.value;
    if c in seen {
      return Failure(IncludeCycle(path)), seen;
    }
    seen' := seen + {c};
    FewerUnseen(fs.files.Keys, seen, seen');
    var includes := fs.files[c].includes;
    var merged := fs.files[c].(includes := []);
    for i := 0 to |includes|
      invariant seen + {c} <= seen'
      invariant Load(fs, path, seen) == LoadAll(fs, path, merged, includes[i..], seen')
    {
      FewerUnseen(fs.files.Keys, seen + {c}, seen');
      assert includes[i..][1..] == includes[i + 1..];
      var sub;
      sub, seen' := LoadTopologyInner(fs, fs.sibling(path, includes[i]), seen');
      if sub.Failure? {
        return Failure(sub.error), seen';
      }
      var joined := MergeIn(merged, sub.value);
      if joined.Failure? {
        return Failure(joined.error), seen';
      }
      merged := joined.value;
    }
    return Success(merged), seen';
  }

  /** Loads everything a file includes, then expands the instances. */
  method LoadTopology(fs: FileSystem, path: string) returns (r: Maybe<TopologySchema>)
    ensures var merged := Load(fs, path, {}).0;
            r == if merged.Failure? then Failure(merged.error) else Expanded(merged.value)
  {
    var merged, _ := LoadTopologyInner(fs, path, {});
    if merged.Failure? {
      return Failure(merged.error);
    }
    r := Expand(merged.value);
  }

  // ---- Include trees -------------------------------------------------------------------

  /** The files reached from one path, with a branch for each include. */
  datatype Tree = Node(file: string, branches: seq<Tree>)

  /** `t` unfolds the includes of the file at `path`, completely and with every file present. */
  ghost predicate Unfolds(fs: FileSystem, path: string, t: Tree)
    decreases t
  {
    && fs.canonical(path) == Some(t.file) && t.file in fs.files
    && UnfoldAll(fs, path, fs.files[t.file].includes, t.branches)
  }

  ghost predicate UnfoldAll(fs: FileSystem, path: string, incs: seq<string>, ts: seq<Tree>)
    decreases ts
  {
    if incs == [] || ts == [] then incs == [] && ts == []
    else Unfolds(fs, fs.sibling(path, incs[0]), ts[0]) && UnfoldAll(fs, path, incs[1..], ts[1..])
  }

  /** The files of a tree in preorder. */
  function Files(t: Tree): seq<string> {
    [t.file] + FilesAll(t.branches)
  }

  function FilesAll(ts: seq<Tree>): seq<string> {
    if ts == [] then [] else Files(ts[0]) + FilesAll(ts[1..])
  }

  const EMPTY: TopologySchema := TopologySchema("", [], [], [], None, [], [])

  function File(fs: FileSystem, c: string): TopologySchema {
    if c in fs.files then fs.files[c] else EMPTY
  }

  /** The merge of a whole tree. */
  function Whole(fs: FileSystem, t: Tree): TopologySchema
    decreases t
  {
    CombineAll(fs, File(fs, t.file).(includes := []), t.branches)
  }

  function CombineAll(fs: FileSystem, acc: TopologySchema, ts: seq<Tree>): TopologySchema
    decreases ts
  {
    if ts == [] then acc else CombineAll(fs, Combine(acc, Whole(fs, ts[0])), ts[1..])
  }

  predicate NoDuplicates(files: seq<string>) {
    forall i, j :: 0 <= i < j < |files| ==> files[i] != files[j]
  }

  /** The two files declare no signal in common. */
  ghost predicate Unrelated(fs: FileSystem, c: string, c': string) {
    forall s, s' :: s in File(fs, c).signals && s' in File(fs, c').signals ==> s.id != s'.id
  }

  /** Different files of the list declare different signals. */
  ghost predicate CrossDistinct(fs: FileSystem, files: seq<string>) {
    forall i, j :: 0 <= i < j < |files| ==> Unrelated(fs, files[i], files[j])
  }

  /** The files can be loaded once each, after those in `seen`. */
  ghost predicate Loadable(fs: FileSystem, files: seq<string>, seen: set<string>) {
    Once(files, seen) && CrossDistinct(fs, files)
  }

  /** The files are different from each other and from those in `seen`. */
  ghost predicate Once(files: seq<string>, seen: set<string>) {
    NoDuplicates(files) && forall c :: c in files ==> c !in seen
  }

  function SignalsOf(fs: FileSystem, files: seq<string>): seq<SignalDef> {
    if files == [] then [] else File(fs, files[0]).signals + SignalsOf(fs, files[1..])
  }

  function TransitionsOf(fs: FileSystem, files: seq<string>): seq<TransitionDef> {
    if files == [] then [] else File(fs, files[0]).transitions + TransitionsOf(fs, files[1..])
  }

  function ReactionsOf(fs: FileSystem, files: seq<string>): seq<ReactionDef> {
    if files == [] then [] else File(fs, files[0]).reactions + ReactionsOf(fs, files[1..])
  }

  function ComponentsOf(fs: FileSystem, files: seq<string>): Option<map<string, ComponentDef>> {
    if files == [] then None
    else MergeComponents(ComponentsOf(fs, files[..|files| - 1]), File(fs, files[|files| - 1]).components)
  }

  // ---- The merge of a tree is the concatenation of its files in preorder ---------------

  lemma {:induction false} OfConcat(fs: FileSystem, a: seq<string>, b: seq<string>)
    ensures SignalsOf(fs, a + b) == SignalsOf(fs, a) + SignalsOf(fs, b)
    ensures TransitionsOf(fs, a + b) == TransitionsOf(fs, a) + TransitionsOf(fs, b)
    ensures ReactionsOf(fs, a + b) == ReactionsOf(fs, a) + ReactionsOf(fs, b)
    decreases |a|
  {
    if a == [] {
      assert a + b == b;
    } else {
      assert (a + b)[1..] == a[1..] + b;
      OfConcat(fs, a[1..], b);
    }
  }

  lemma {:induction false} ComponentsConcat(fs: FileSystem, a: seq<string>, b: seq<string>)
    ensures ComponentsOf(fs, a + b) == MergeComponents(ComponentsOf(fs, a), ComponentsOf(fs, b))
    decreases |b|
  {
    if b == [] {
      assert a + b == a;
    } else {
      var front, last := b[..|b| - 1], b[|b| - 1];
      assert (a + b)[..|a + b| - 1] == a + front;
      ComponentsConcat(fs, a, front);
      MergeAssociates(ComponentsOf(fs, a), ComponentsOf(fs, front), File(fs, last).components);
    }
  }

  lemma MergeAssociates(a: Option<map<string, ComponentDef>>, b: Option<map<string, ComponentDef>>,
                        c: Option<map<string, ComponentDef>>)
    ensures MergeComponents(MergeComponents(a, b), c) == MergeComponents(a, MergeComponents(b, c))
  {
    if a.Some? && b.Some? && c.Some? {
      assert a.value + b.value + c.value == a.value + (b.value + c.value);
    }
  }

  /** `s` holds what the files in `files` declare, in order. */
  ghost predicate Holds(fs: FileSystem, s: TopologySchema, files: seq<string>) {
    && s.signals == SignalsOf(fs, files) && s.transitions == TransitionsOf(fs, files)
    && s.reactions == ReactionsOf(fs, files) && s.components == ComponentsOf(fs, files)
  }

  lemma CombineHolds(fs: FileSystem, a: TopologySchema, b: TopologySchema, files: seq<string>, files': seq<string>)
    requires Holds(fs, a, files) && Holds(fs, b, files')
    ensures Holds(fs, Combine(a, b), files + files')
  {
    OfConcat(fs, files, files');
    ComponentsConcat(fs, files, files');
  }

  lemma FileHolds(fs: FileSystem, c: string)
    ensures Holds(fs, File(fs, c).(includes := []), [c])
  {
    assert [c][1..] == [] && [c][..0] == [];
    assert SignalsOf(fs, []) == [] && TransitionsOf(fs, []) == [] && ReactionsOf(fs, []) == [];
    assert ComponentsOf(fs, [c]) == MergeComponents(ComponentsOf(fs, []), File(fs, c).components);
  }

  /** The merge of a tree holds its files in preorder, and the instances of its root alone. */
  lemma {:induction false} WholeIsPreorder(fs: FileSystem, t: Tree)
    ensures Holds(fs, Whole(fs, t), Files(t))
    ensures Whole(fs, t).instances == File(fs, t.file).instances && Whole(fs, t).includes == []
    decreases t
  {
    var root := File(fs, t.file).(includes := []);
    FileHolds(fs, t.file);
    CombineAllIsPreorder(fs, root, [t.file], t.branches);
  }

  lemma {:induction false} CombineAllIsPreorder(fs: FileSystem, acc: TopologySchema, files: seq<string>, ts: seq<Tree>)
    requires Holds(fs, acc, files)
    ensures Holds(fs, CombineAll(fs, acc, ts), files + FilesAll(ts))
    ensures CombineAll(fs, acc, ts).instances == acc.instances && CombineAll(fs, acc, ts).includes == acc.includes
    decreases ts
  {
    hide Holds;
    if ts == [] {
      assert files + [] == files;
    } else {
      WholeIsPreorder(fs, ts[0]);
      CombineHolds(fs, acc, Whole(fs, ts[0]), files, Files(ts[0]));
      CombineAllIsPreorder(fs, Combine(acc, Whole(fs, ts[0])), files + Files(ts[0]), ts[1..]);
      assert files + Files(ts[0]) + FilesAll(ts[1..]) == files + FilesAll(ts);
    }
  }

  /** File `c` declares component `name`. */
  predicate Declares(fs: FileSystem, c: string, name: string) {
    File(fs, c).components.Some? && name in File(fs, c).components.value
  }

  /** File `k` is the last of `files` that declares component `name`. */
  predicate LastDeclares(fs: FileSystem, files: seq<string>, name: string, k: int) {
    0 <= k < |files| && Declares(fs, files[k], name) && forall j :: k < j < |files| ==> !Declares(fs, files[j], name)
  }

  predicate Has(components: Option<map<string, ComponentDef>>, name: string) {
    components.Some? && name in components.value
  }

  /** Of a component that several files declare, the one declared last is kept. */
  lemma {:induction false} LastComponentWins(fs: FileSystem, files: seq<string>, name: string)
    ensures Has(ComponentsOf(fs, files), name) <==> exists k :: LastDeclares(fs, files, name, k)
    ensures forall k :: LastDeclares(fs, files, name, k) ==>
              Has(ComponentsOf(fs, files), name)
              && ComponentsOf(fs, files).value[name] == File(fs, files[k]).components.value[name]
    ensures ComponentsOf(fs, files).Some? <==> exists k :: 0 <= k < |files| && File(fs, files[k]).components.Some?
    decreases |files|
  {
    if files != [] {
      var front, n := files[..|files| - 1], |files| - 1;
      LastComponentWins(fs, front, name);
      assert forall j :: 0 <= j < n ==> front[j] == files[j];
      hide ComponentsOf;
      if Declares(fs, files[n], name) {
        assert LastDeclares(fs, files, name, n);
      } else {
        forall k ensures LastDeclares(fs, files, name, k) <==> LastDeclares(fs, front, name, k) {}
      }
    }
  }

  // ---- When merging clashes ------------------------------------------------------------

  lemma {:induction false} ClashMeans(acc: seq<SignalDef>, sub: seq<SignalDef>)
    ensures Clash(acc, sub).None? <==> forall s, s' :: s in acc && s' in sub ==> s.id != s'.id
  {
    if sub != [] {
      assert sub == [sub[0]] + sub[1..];
      ClashMeans(acc, sub[1..]);
    }
  }

  lemma {:induction false} SignalsOfMembers(fs: FileSystem, files: seq<string>, s: SignalDef)
    ensures s in SignalsOf(fs, files) <==> exists i :: 0 <= i < |files| && s in File(fs, files[i]).signals
  {
    if files != [] {
      SignalsOfMembers(fs, files[1..], s);
      if s in SignalsOf(fs, files[1..]) {
        var i :| 0 <= i < |files[1..]| && s in File(fs, files[1..][i]).signals;
        assert files[i + 1] == files[1..][i];
      }
      if i :| 0 <= i < |files| && s in File(fs, files[i]).signals {
        assert i > 0 ==> files[1..][i - 1] == files[i];
      }
    }
  }

  /** Merging two merges clashes exactly when two of their files declare the same signal. */
  lemma MergesClash(fs: FileSystem, a: seq<string>, b: seq<string>)
    ensures Clash(SignalsOf(fs, a), SignalsOf(fs, b)).None? <==>
              forall i, j :: 0 <= i < |a| && 0 <= j < |b| ==> Unrelated(fs, a[i], b[j])
  {
    ClashMeans(SignalsOf(fs, a), SignalsOf(fs, b));
    forall i, j, s, s' | 0 <= i < |a| && 0 <= j < |b| && s in File(fs, a[i]).signals && s' in File(fs, b[j]).signals
      ensures s in SignalsOf(fs, a) && s' in SignalsOf(fs, b)
    {
      SignalsOfMembers(fs, a, s);
      SignalsOfMembers(fs, b, s');
    }
    if forall i, j :: 0 <= i < |a| && 0 <= j < |b| ==> Unrelated(fs, a[i], b[j]) {
      forall s, s' | s in SignalsOf(fs, a) && s' in SignalsOf(fs, b) ensures s.id != s'.id {
        SignalsOfMembers(fs, a, s);
        SignalsOfMembers(fs, b, s');
      }
    }
  }

  lemma CrossConcat(fs: FileSystem, a: seq<string>, b: seq<string>)
    ensures CrossDistinct(fs, a + b) <==>
              CrossDistinct(fs, a) && CrossDistinct(fs, b) && Clash(SignalsOf(fs, a), SignalsOf(fs, b)).None?
  {
    hide Unrelated, SignalsOf, Clash;
    MergesClash(fs, a, b);
    var all := a + b;
    forall i | 0 <= i < |a| ensures all[i] == a[i] {}
    forall j | 0 <= j < |b| ensures all[|a| + j] == b[j] {}
    if CrossDistinct(fs, all) {
      forall i, j | 0 <= i < |a| && 0 <= j < |b| ensures Unrelated(fs, a[i], b[j]) {
        assert Unrelated(fs, all[i], all[|a| + j]);
      }
      forall i, j | 0 <= i < j < |a| ensures Unrelated(fs, a[i], a[j]) {
        assert Unrelated(fs, all[i], all[j]);
      }
      forall i, j | 0 <= i < j < |b| ensures Unrelated(fs, b[i], b[j]) {
        assert Unrelated(fs, all[|a| + i], all[|a| + j]);
      }
    }
  }

  // ---- Loading succeeds exactly on loadable trees --------------------------------------

  function SetOf(files: seq<string>): set<string> {
    set c | c in files
  }

  lemma SetOfConcat(a: seq<string>, b: seq<string>)
    ensures SetOf(a + b) == SetOf(a) + SetOf(b)
  {}

  lemma OnceConcat(a: seq<string>, b: seq<string>, seen: set<string>)
    ensures Once(a + b, seen) <==> Once(a, seen) && Once(b, seen + SetOf(a))
  {
    var all := a + b;
    forall i | 0 <= i < |a| ensures all[i] == a[i] {}
    forall j | 0 <= j < |b| ensures all[|a| + j] == b[j] {}
    if Once(all, seen) {
      forall i, j | 0 <= i < |a| && 0 <= j < |b| ensures a[i] != b[j] {
        assert all[i] != all[|a| + j];
      }
      forall i, j | 0 <= i < j < |b| ensures b[i] != b[j] {
        assert all[|a| + i] != all[|a| + j];
      }
    }
    if Once(a, seen) && Once(b, seen + SetOf(a)) {
      forall i, j | 0 <= i < j < |all| ensures all[i] != all[j] {
        if i < |a| <= j {
          assert a[i] in SetOf(a) && b[j - |a|] in b;
        } else if |a| <= i {
          assert b[i - |a|] != b[j - |a|];
        }
      }
    }
  }

  lemma LoadableConcat(fs: FileSystem, a: seq<string>, b: seq<string>, seen: set<string>)
    ensures Loadable(fs, a + b, seen) <==>
              Loadable(fs, a, seen) && Loadable(fs, b, seen + SetOf(a))
                && Clash(SignalsOf(fs, a), SignalsOf(fs, b)).None?
  {
    hide CrossDistinct, SignalsOf, Clash, Once;
    CrossConcat(fs, a, b);
    OnceConcat(a, b, seen);
  }

  /** Loading a readable file that was not seen yet comes down to loading its includes. */
  lemma LoadFresh(fs: FileSystem, path: string, seen: set<string>, c: string)
    requires fs.canonical(path) == Some(c) && c in fs.files && c !in seen
    ensures Load(fs, path, seen) == LoadAll(fs, path, fs.files[c].(includes := []), fs.files[c].includes,
                                            seen + SetOf([c]))
    ensures Loadable(fs, [c], seen) && Holds(fs, fs.files[c].(includes := []), [c])
    ensures |fs.files.Keys - (seen + SetOf([c]))| < |fs.files.Keys - seen|
  {
    FewerUnseen(fs.files.Keys, seen, seen + {c});
    FileHolds(fs, c);
    assert SetOf([c]) == {c};
  }

  /** A loadable tree loads: the result is its merge, and its files are seen afterwards. */
  lemma {:induction false} TreeLoads(fs: FileSystem, path: string, t: Tree, seen: set<string>)
    requires Unfolds(fs, path, t) && Loadable(fs, Files(t), seen)
    ensures Load(fs, path, seen) == (Success(Whole(fs, t)), seen + SetOf(Files(t)))
    decreases t
  {
    hide CrossDistinct, NoDuplicates, Load, LoadAll, Holds, SetOf;
    assert t.file in Files(t);
    LoadFresh(fs, path, seen, t.file);
    TreesLoad(fs, path, fs.files[t.file].(includes := []), fs.files[t.file].includes, t.branches, [t.file], seen);
    SetOfConcat([t.file], FilesAll(t.branches));
    assert seen + SetOf([t.file]) + SetOf(FilesAll(t.branches)) == seen + SetOf(Files(t));
  }

  lemma {:induction false} TreesLoad(fs: FileSystem, path: string, merged: TopologySchema, incs: seq<string>,
                                     ts: seq<Tree>,
                                     files: seq<string>, seen: set<string>)
    requires UnfoldAll(fs, path, incs, ts) && Holds(fs, merged, files) && Loadable(fs, files + FilesAll(ts), seen)
    ensures LoadAll(fs, path, merged, incs, seen + SetOf(files))
         == (Success(CombineAll(fs, merged, ts)), seen + SetOf(files) + SetOf(FilesAll(ts)))
    decreases ts
  {
    hide Loadable, Unfolds, Load, Files, Clash, SignalsOf;
    var now := seen + SetOf(files);
    if ts == [] {
      assert now + SetOf([]) == now;
      LoadAllDone(fs, path, merged, now);
    } else {
      var own, rest, whole := Files(ts[0]), FilesAll(ts[1..]), Whole(fs, ts[0]);
      assert files + FilesAll(ts) == files + own + rest;
      LoadableConcat(fs, files + own, rest, seen);
      LoadableConcat(fs, files, own, seen);
      TreeLoads(fs, fs.sibling(path, incs[0]), ts[0], now);
      WholeIsPreorder(fs, ts[0]);
      CombineHolds(fs, merged, whole, files, own);
      MergeGivesNoClash(fs, merged, whole, files, own);
      SetOfConcat(files, own);
      SetOfConcat(own, rest);
      hide Holds, SetOf, Whole, LoadAll;
      assert now + SetOf(own) == seen + SetOf(files + own);
      TreesLoad(fs, path, Combine(merged, whole), incs[1..], ts[1..], files + own, seen);
      assert now + SetOf(own) + SetOf(rest) == now + SetOf(FilesAll(ts));
      LoadAllStep(fs, path, merged, incs, now);
    }
  }

  lemma LoadAllDone(fs: FileSystem, path: string, merged: TopologySchema, seen: set<string>)
    ensures LoadAll(fs, path, merged, [], seen) == (Success(merged), seen)
  {}

  /** One turn of the loop over the includes. */
  lemma LoadAllStep(fs: FileSystem, path: string, merged: TopologySchema, incs: seq<string>, seen: set<string>)
    requires incs != []
    ensures var (sub, seen1) := Load(fs, fs.sibling(path, incs[0]), seen);
            LoadAll(fs, path, merged, incs, seen) ==
            if sub.Failure? then (Failure(sub.error), seen1)
            else if Merge(merged, sub.value).Failure? then (Failure(Merge(merged, sub.value).error), seen1)
            else LoadAll(fs, path, Merge(merged, sub.value).value, incs[1..], seen1)
  {
    var (sub, seen1) := Load(fs, fs.sibling(path, incs[0]), seen);
    FewerUnseen(fs.files.Keys, seen, seen1);
  }

  /** What loads is a loadable tree. */
  lemma {:induction false} LoadedIsTree(fs: FileSystem, path: string, seen: set<string>) returns (t: Tree)
    requires Load(fs, path, seen).0.Success?
    ensures Unfolds(fs, path, t) && Loadable(fs, Files(t), seen)
    decreases |fs.files.Keys - seen|, 0, 0
  {
    hide LoadAll, Loadable, Holds, SetOf;
    var c := fs.canonical(path).value;
    LoadFresh(fs, path, seen, c);
    var ts := LoadedAreTrees(fs, path, fs.files[c].(includes := []), fs.files[c].includes, [c], seen);
    t := Node(c, ts);
  }

  lemma {:induction false} LoadedAreTrees(fs: FileSystem, path: string, merged: TopologySchema, incs: seq<string>,
                                          files: seq<string>, seen: set<string>) returns (ts: seq<Tree>)
    requires LoadAll(fs, path, merged, incs, seen + SetOf(files)).0.Success?
    requires Holds(fs, merged, files) && Loadable(fs, files, seen)
    ensures UnfoldAll(fs, path, incs, ts) && Loadable(fs, files + FilesAll(ts), seen)
    decreases |fs.files.Keys - (seen + SetOf(files))|, 1, |incs|
  {
    hide Loadable, Unfolds, Holds, SetOf, Files, Whole, Load, LoadAll, Clash, SignalsOf;
    if incs == [] {
      ts := [];
      assert files + [] == files;
    } else {
      var now, sub := seen + SetOf(files), fs.sibling(path, incs[0]);
      LoadAllStep(fs, path, merged, incs, now);
      var t := LoadedIsTree(fs, sub, now);
      LoadAllAdvance(fs, path, merged, incs, files, seen, t);
      var rest := LoadedAreTrees(fs, path, Combine(merged, Whole(fs, t)), incs[1..], files + Files(t), seen);
      ts := [t] + rest;
      assert ts[1..] == rest;
      assert files + Files(t) + FilesAll(rest) == files + FilesAll(ts);
    }
  }

  /** After one include that is the loadable tree `t`, the rest of the includes remain to be loaded. */
  lemma LoadAllAdvance(fs: FileSystem, path: string, merged: TopologySchema, incs: seq<string>, files: seq<string>,
                       seen: set<string>, t: Tree)
    requires incs != [] && LoadAll(fs, path, merged, incs, seen + SetOf(files)).0.Success?
    requires Holds(fs, merged, files) && Loadable(fs, files, seen)
    requires Unfolds(fs, fs.sibling(path, incs[0]), t) && Loadable(fs, Files(t), seen + SetOf(files))
    ensures Holds(fs, Combine(merged, Whole(fs, t)), files + Files(t)) && Loadable(fs, files + Files(t), seen)
    ensures LoadAll(fs, path, Combine(merged, Whole(fs, t)), incs[1..], seen + SetOf(files + Files(t))).0.Success?
    ensures |fs.files.Keys - (seen + SetOf(files + Files(t)))| <= |fs.files.Keys - (seen + SetOf(files))|
  {
    hide Loadable, Unfolds, Holds, SetOf, Files, Whole, Load, LoadAll, Clash, SignalsOf;
    var now, sub, own, whole := seen + SetOf(files), fs.sibling(path, incs[0]), Files(t), Whole(fs, t);
    LoadAllStep(fs, path, merged, incs, now);
    TreeLoads(fs, sub, t, now);
    WholeIsPreorder(fs, t);
    MergeGivesNoClash(fs, merged, whole, files, own);
    LoadableConcat(fs, files, own, seen);
    CombineHolds(fs, merged, whole, files, own);
    SetOfConcat(files, own);
    assert now + SetOf(own) == seen + SetOf(files + own);
    FewerUnseen(fs.files.Keys, now, now + SetOf(own));
  }

  lemma MergeGivesNoClash(fs: FileSystem, a: TopologySchema, b: TopologySchema, files: seq<string>, files': seq<string>)
    requires Holds(fs, a, files) && Holds(fs, b, files')
    ensures Merge(a, b).Success? <==> Clash(SignalsOf(fs, files), SignalsOf(fs, files')).None?
  {}

  /**
   The main result: loading succeeds exactly when the includes unfold to a tree in which no
   file occurs twice and no two files declare the same signal. Then each file of the tree is
   visited once, and the result holds what they declare in preorder.
   */
  lemma LoadIff(fs: FileSystem, path: string)
    ensures Load(fs, path, {}).0.Success? <==> exists t :: Unfolds(fs, path, t) && Loadable(fs, Files(t), {})
    ensures forall t :: Unfolds(fs, path, t) && Loadable(fs, Files(t), {}) ==>
              Load(fs, path, {}) == (Success(Whole(fs, t)), SetOf(Files(t))) && Holds(fs, Whole(fs, t), Files(t))
  {
    hide Unfolds, Loadable, Holds, Load;
    if Load(fs, path, {}).0.Success? {
      var t := LoadedIsTree(fs, path, {});
      assert Unfolds(fs, path, t) && Loadable(fs, Files(t), {});
    }
    forall t | Unfolds(fs, path, t) && Loadable(fs, Files(t), {})
      ensures Load(fs, path, {}) == (Success(Whole(fs, t)), SetOf(Files(t))) && Holds(fs, Whole(fs, t), Files(t))
    {
      TreeLoads(fs, path, t, {});
      WholeIsPreorder(fs, t);
      assert {} + SetOf(Files(t)) == SetOf(Files(t));
    }
  }

  // ---- Cycles --------------------------------------------------------------------------

  /** Each path of the chain is an include of the file at the path before it, the first one of the file at `path`. */
  ghost predicate IncludeChain(fs: FileSystem, path: string, chain: seq<string>)
    decreases |chain|
  {
    chain != [] ==>
      fs.canonical(path).Some? && fs.canonical(path).value in fs.files
      && (exists inc :: inc in fs.files[fs.canonical(path).value].includes && chain[0] == fs.sibling(path, inc))
      && IncludeChain(fs, chain[0], chain[1..])
  }

  /** The branch of an include chain in the tree it runs through. */
  lemma {:induction false} BranchOf(fs: FileSystem, path: string, incs: seq<string>, ts: seq<Tree>, inc: string)
    returns (t: Tree)
    requires UnfoldAll(fs, path, incs, ts) && inc in incs
    ensures Unfolds(fs, fs.sibling(path, inc), t) && t in ts && forall c :: c in Files(t) ==> c in FilesAll(ts)
    ensures NoDuplicates(FilesAll(ts)) ==> NoDuplicates(Files(t))
    decreases ts
  {
    hide Unfolds, Files;
    if incs[0] == inc {
      t := ts[0];
      forall i | 0 <= i < |Files(t)| ensures FilesAll(ts)[i] == Files(t)[i] {}
    } else {
      t := BranchOf(fs, path, incs[1..], ts[1..], inc);
      var n := |Files(ts[0])|;
      forall i | 0 <= i < |FilesAll(ts[1..])| ensures FilesAll(ts)[n + i] == FilesAll(ts[1..])[i] {}
      if NoDuplicates(FilesAll(ts)) {
        forall i, j | 0 <= i < j < |FilesAll(ts[1..])| ensures FilesAll(ts[1..])[i] != FilesAll(ts[1..])[j] {
          assert FilesAll(ts)[n + i] != FilesAll(ts)[n + j];
        }
      }
    }
  }

  /** A chain of includes leads to a file below the root, so not to the root's own file. */
  lemma {:induction false} ChainLeadsBelow(fs: FileSystem, path: string, t: Tree, chain: seq<string>)
    returns (last: Tree)
    requires Unfolds(fs, path, t) && NoDuplicates(Files(t)) && IncludeChain(fs, path, chain)
    ensures Unfolds(fs, if chain == [] then path else chain[|chain| - 1], last) && NoDuplicates(Files(last))
    ensures last.file in Files(t) && (chain != [] ==> last.file != t.file)
    decreases |chain|
  {
    if chain == [] {
      last := t;
      assert Files(t)[0] == t.file;
    } else {
      var inc :| inc in fs.files[t.file].includes && chain[0] == fs.sibling(path, inc);
      RootApart(t);
      var sub := BranchOf(fs, path, fs.files[t.file].includes, t.branches, inc);
      hide Files, FilesAll, NoDuplicates;
      last := ChainLeadsBelow(fs, chain[0], sub, chain[1..]);
    }
  }

  lemma RootApart(t: Tree)
    requires NoDuplicates(Files(t))
    ensures NoDuplicates(FilesAll(t.branches)) && t.file !in FilesAll(t.branches)
    ensures t.file in Files(t) && forall c :: c in FilesAll(t.branches) ==> c in Files(t)
  {
    hide FilesAll;
    var below := FilesAll(t.branches);
    forall i | 0 <= i < |below| ensures Files(t)[i + 1] == below[i] && Files(t)[i + 1] != t.file {
      assert Files(t)[0] != Files(t)[i + 1];
    }
    forall i, j | 0 <= i < j < |below| ensures below[i] != below[j] {
      assert Files(t)[i + 1] != Files(t)[j + 1];
    }
  }

  /** A cycle of includes anywhere below a path, under whatever spellings, makes loading it fail. */
  lemma CyclesFail(fs: FileSystem, path: string, lead: seq<string>, cycle: seq<string>)
    requires IncludeChain(fs, path, lead) && cycle != []
    requires var start := if lead == [] then path else lead[|lead| - 1];
             IncludeChain(fs, start, cycle) && fs.canonical(cycle[|cycle| - 1]) == fs.canonical(start)
    ensures Load(fs, path, {}).0.Failure?
  {
    hide IncludeChain, Load, CrossDistinct;
    if Load(fs, path, {}).0.Success? {
      var t := LoadedIsTree(fs, path, {});
      var start := if lead == [] then path else lead[|lead| - 1];
      var top := ChainLeadsBelow(fs, path, t, lead);
      var _ := ChainLeadsBelow(fs, start, top, cycle);
    }
  }

  // ---- Why loading fails ---------------------------------------------------------------

  /** What a loading error says: a path leads to no file, or to one seen before, or two files share a signal. */
  ghost predicate LoadFault(fs: FileSystem, seen: set<string>, error: EngineError) {
    match error
    case IncludeNotFound(p) => fs.canonical(p).None? || fs.canonical(p).value !in fs.files
    case IncludeCycle(p) => fs.canonical(p).Some? && fs.canonical(p).value in fs.files.Keys * seen
    case DuplicateSignalAfterExpand(id) =>
      exists c, c' :: c in fs.files && c' in fs.files && HasId(fs.files[c].signals, id)
        && HasId(fs.files[c'].signals, id)
    case _ => false
  }

  /** Every signal of `s` is declared in a file. */
  ghost predicate FromFiles(fs: FileSystem, s: TopologySchema) {
    forall x :: x in s.signals ==> exists c :: c in fs.files && x in fs.files[c].signals
  }

  lemma ClashShares(fs: FileSystem, a: TopologySchema, b: TopologySchema)
    requires FromFiles(fs, a) && FromFiles(fs, b) && Clash(a.signals, b.signals).Some?
    ensures var id := Clash(a.signals, b.signals).value; HasId(a.signals, id) && HasId(b.signals, id)
    ensures LoadFault(fs, {}, DuplicateSignalAfterExpand(Clash(a.signals, b.signals).value))
  {
    ClashIsShared(a.signals, b.signals);
    var id := Clash(a.signals, b.signals).value;
    var s :| s in a.signals && s.id == id;
    var s' :| s' in b.signals && s'.id == id;
    var c :| c in fs.files && s in fs.files[c].signals;
    var c' :| c' in fs.files && s' in fs.files[c'].signals;
    assert HasId(fs.files[c].signals, id) && HasId(fs.files[c'].signals, id);
  }

  lemma {:induction false} ClashIsShared(acc: seq<SignalDef>, sub: seq<SignalDef>)
    requires Clash(acc, sub).Some?
    ensures HasId(acc, Clash(acc, sub).value) && HasId(sub, Clash(acc, sub).value)
  {
    if !HasId(acc, sub[0].id) {
      ClashIsShared(acc, sub[1..]);
      var s :| s in sub[1..] && s.id == Clash(acc, sub).value;
      assert s in sub;
    }
  }

  /** Loading fails for one of these reasons; a file seen before was seen on the way. */
  lemma {:induction false} LoadFails(fs: FileSystem, path: string, seen: set<string>)
    ensures match Load(fs, path, seen).0
            case Failure(e) => LoadFault(fs, Load(fs, path, seen).1, e)
            case Success(s) => FromFiles(fs, s)
    decreases |fs.files.Keys - seen|, 0, 0
  {
    if fs.canonical(path).Some? {
      var c := fs.canonical(path).value;
      if c in fs.files && c !in seen {
        FewerUnseen(fs.files.Keys, seen, seen + {c});
        assert FromFiles(fs, fs.files[c].(includes := []));
        LoadAllFails(fs, path, fs.files[c].(includes := []), fs.files[c].includes, seen + {c});
      }
    }
  }

  lemma {:induction false} LoadAllFails(fs: FileSystem, path: string, merged: TopologySchema, incs: seq<string>,
                                        seen: set<string>)
    requires FromFiles(fs, merged)
    ensures match LoadAll(fs, path, merged, incs, seen).0
            case Failure(e) => LoadFault(fs, LoadAll(fs, path, merged, incs, seen).1, e)
            case Success(s) => FromFiles(fs, s)
    decreases |fs.files.Keys - seen|, 1, |incs|
  {
    if incs != [] {
      var (sub, seen1) := Load(fs, fs.sibling(path, incs[0]), seen);
      LoadFails(fs, fs.sibling(path, incs[0]), seen);
      FewerUnseen(fs.files.Keys, seen, seen1);
      if sub.Success? {
        if Clash(merged.signals, sub.value.signals).Some? {
          ClashShares(fs, merged, sub.value);
        } else {
          LoadAllFails(fs, path, Combine(merged, sub.value), incs[1..], seen1);
        }
      }
    }
  }
}
