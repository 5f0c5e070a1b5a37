/** The directory scan of `Group_Files.py`: `group_ome_tiff_by_region`
    files every matching OME-TIFF path under the region the loose pattern
    captures, and `extract_channel_marker_info` files one info string per
    structured name (`1.0.4_DAPI`, `1.0.4_Cy3_iba1`) under the region the
    structured patterns capture. Both fill a `defaultdict(list)` in listing
    order, sort every list in place, and return the items sorted by region.

    The file system is a parameter: what the path names, and the entries of
    a directory in the order `iterdir` yields them. */
module GroupFiles {
  import opened Wrappers
  import opened Text
  import opened Ordering
  import opened FilenamePatterns
  import opened ChannelLabels

  /* ---------------- the file system, as seen by the scan ---------------- */

  /** One entry of a directory listing; `isFile` is `Path.is_file()`. */
  datatype Entry = Entry(name: string, isFile: bool)

  /** What the given path names. */
  datatype PathKind = Missing | NotADirectory | Directory(entries: seq<Entry>)

  /** The two `ValueError`s raised before the scan. */
  datatype ScanError = DoesNotExist(path: string) | NotDirectory(path: string)

  function Message(e: ScanError): string {
    match e
    case DoesNotExist(path) => "Directory does not exist: " + path
    case NotDirectory(path) => "Path is not a directory: " + path
  }

  /** `str(directory / name)` for a directory path without a trailing slash. */
  function PathOf(root: string, name: string): string {
    root + "/" + name
  }

  /** A region and one value filed under it. */
  type Filed = (string, string)

  /** The returned dict, as its items in order. */
  type Groups = seq<(string, seq<string>)>

  /* ---------------- what gets filed ---------------- */

  /** The region and value for each file entry that `key` accepts, in
      listing order; directories and other non-files are skipped. */
  function Pairs(entries: seq<Entry>, key: string -> Option<Filed>): seq<Filed>
    decreases |entries|
  {
    if |entries| == 0 then []
    else
      var e := entries[|entries| - 1];
      Pairs(entries[..|entries| - 1], key)
      + (if e.isFile && key(e.name).Some? then [key(e.name).value] else [])
  }

  /** The loose pattern files the full path under its captured region. */
  function LooseKey(root: string): string -> Option<Filed> {
    (name: string) =>
      if LooseRegion(name).Some? then Some((LooseRegion(name).value, PathOf(root, name))) else None
  }

  /** The DAPI pattern is tried first; a DAPI file is recorded as
      `round_DAPI` whatever the case of `DAPI` in its name, a channel file as
      `round_channel_marker` with the case of the name. */
  function InfoOf(name: string): (r: Option<Filed>)
    ensures r.Some? <==> Match(DapiPattern, name).Some? || Match(ChannelPattern, name).Some?
    ensures r.Some? ==> RegionToken(r.value.0)
    ensures Match(DapiPattern, name).Some? ==>
      r == Some((Match(DapiPattern, name).value.region, RoundText(Match(DapiPattern, name).value.round) + "_DAPI"))
    ensures Match(DapiPattern, name).None? && Match(ChannelPattern, name).Some? ==>
      var c := Match(ChannelPattern, name).value;
      c.part.Stained? &&
      r == Some((c.region, RoundText(c.round) + "_" + c.part.channel + "_" + c.part.marker))
  {
    match Match(DapiPattern, name)
    case Some(p) => Some((p.region, RoundText(p.round) + "_DAPI"))
    case None =>
      match Match(ChannelPattern, name)
      case Some(p) =>
        Some((p.region, RoundText(p.round) + "_" + p.part.channel + "_" + p.part.marker))
      case None => None
  }

  function InfoKey(): string -> Option<Filed> {
    (name: string) => InfoOf(name)
  }

  /** The values filed under `k`, in filing order. */
  function ValuesOf(pairs: seq<Filed>, k: string): seq<string>
    decreases |pairs|
  {
    if |pairs| == 0 then []
    else
      var last := pairs[|pairs| - 1];
      ValuesOf(pairs[..|pairs| - 1], k) + (if last.0 == k then [last.1] else [])
  }

  /** The regions in the order they were first filed: the key order of the
      `defaultdict`. */
  function KeysInOrder(pairs: seq<Filed>): seq<string>
    decreases |pairs|
  {
    if |pairs| == 0 then []
    else
      var ks := KeysInOrder(pairs[..|pairs| - 1]);
      var k := pairs[|pairs| - 1].0;
      if k in ks then ks else ks + [k]
  }

  /** The returned dict: regions ascending, each with its values ascending. */
  function Grouped(pairs: seq<Filed>): Groups {
    var ks := Sort(KeysInOrder(pairs));
    seq(|ks|, i requires 0 <= i < |ks| => (ks[i], Sort(ValuesOf(pairs, ks[i]))))
  }

  predicate NoDup(s: seq<string>) {
    forall i, j | 0 <= i < j < |s| :: s[i] != s[j]
  }

  /* ---------------- the defaultdict(list) ---------------- */

  /** `defaultdict(list)` from region to values: its keys in insertion order
      and its lists. */
  class RegionLists {
    var keys: seq<string>
    var lists: map<string, seq<string>>

    ghost predicate Valid()
      reads this
    {
      NoDup(keys) && forall k :: k in lists <==> k in keys
    }

    /** The lists hold exactly what `pairs` files, in filing order. */
    ghost predicate Holds(pairs: seq<Filed>)
      reads this
    {
      keys == KeysInOrder(pairs)
      && (forall k :: k in lists <==> k in keys)
      && forall k | k in lists :: lists[k] == ValuesOf(pairs, k)
    }

    constructor()
      ensures keys == [] && lists == map[]
    {
      keys := [];
      lists := map[];
    }

    /** `groups[key].append(value)`: a missing key starts an empty list.
        Lists that hold `filed` then hold `filed` with the new value. */
    method Append(key: string, value: string, ghost filed: seq<Filed>)
      requires Holds(filed)
      modifies this
      ensures key in old(lists) ==> keys == old(keys) && lists == old(lists)[key := old(lists)[key] + [value]]
      ensures key !in old(lists) ==> keys == old(keys) + [key] && lists == old(lists)[key := [value]]
      ensures Holds(filed + [(key, value)])
    {
      FiledStep(filed, (key, value));
      KeysInOrderNoDup(filed);
      if key in lists {
        lists := lists[key := lists[key] + [value]];
      } else {
        keys := keys + [key];
        lists := lists[key := [value]];
      }
    }

    /** One entry of the listing: a file whose name the pattern accepts is
        appended under its region; anything else leaves the lists alone. */
    method File(e: Entry, key: string -> Option<Filed>, ghost filed: seq<Filed>)
      requires Holds(filed)
      modifies this
      ensures Holds(filed + (if e.isFile && key(e.name).Some? then [key(e.name).value] else []))
    {
      if e.isFile && key(e.name).Some? {
        var found := key(e.name).value;
        Append(found.0, found.1, filed);
      } else {
        assert filed + [] == filed;
      }
    }

    /** `for k in groups: groups[k].sort()` */
    method SortEach()
      requires Valid()
      modifies this
      ensures keys == old(keys) && lists.Keys == old(lists).Keys
      ensures forall k | k in lists :: lists[k] == Sort(old(lists)[k])
    {
      var i := 0;
      while i < |keys|
        invariant 0 <= i <= |keys|
        invariant keys == old(keys) && lists.Keys == old(lists).Keys
        invariant forall k | k in lists :: k in keys
        invariant forall j | 0 <= j < i :: lists[keys[j]] == Sort(old(lists)[keys[j]])
        invariant forall j | i <= j < |keys| :: lists[keys[j]] == old(lists)[keys[j]]
      {
        var k := keys[i];
        assert forall j | 0 <= j < |keys| && j != i :: keys[j] != k;
        lists := lists[k := Sort(lists[k])];
        i := i + 1;
      }
    }

    /** `dict(sorted(groups.items()))`: the keys are distinct, so the items
        come out in ascending key order. */
    method SortedItems() returns (items: Groups)
      requires Valid()
      ensures |items| == |keys|
      ensures forall i | 0 <= i < |items| ::
        Sort(keys)[i] in lists && items[i] == (Sort(keys)[i], lists[Sort(keys)[i]])
    {
      var order := Sort(keys);
      items := [];
      var i := 0;
      while i < |order|
        invariant 0 <= i <= |order| && |items| == i
        invariant forall j | 0 <= j < i :: order[j] in lists && items[j] == (order[j], lists[order[j]])
      {
        assert order[i] in multiset(keys);
        items := items + [(order[i], lists[order[i]])];
        i := i + 1;
      }
      assert |order| == |multiset(order)| == |multiset(keys)| == |keys|;
    }
  }

  /* ---------------- the scans ---------------- */

  /** The loop both scans share: file every accepted entry in listing
      order. */
  method FileAll(entries: seq<Entry>, key: string -> Option<Filed>) returns (acc: RegionLists)
    ensures fresh(acc) && acc.Holds(Pairs(entries, key))
  {
    acc := new RegionLists();
    var i := 0;
    while i < |entries|
      invariant 0 <= i <= |entries|
      invariant acc.Holds(Pairs(entries[..i], key))
    {
      ghost var before := Pairs(entries[..i], key);
      PairsStep(entries, i, key);
      acc.File(entries[i], key, before);
      i := i + 1;
    }
    assert entries[..|entries|] == entries;
  }

  /** File every accepted entry, sort every list, return the items by
      region. */
  method Collect(entries: seq<Entry>, key: string -> Option<Filed>) returns (groups: Groups)
    ensures groups == Grouped(Pairs(entries, key))
  {
    var acc := FileAll(entries, key);
    ghost var pairs := Pairs(entries, key);
    KeysInOrderNoDup(pairs);
    acc.SortEach();
    groups := acc.SortedItems();
    ItemsAreGrouped(pairs, acc.keys, acc.lists, groups);
  }

  /** `group_ome_tiff_by_region(directory)` */
  method GroupOmeTiffByRegion(root: string, path: PathKind) returns (r: Result<Groups, ScanError>)
    ensures path.Missing? ==> r == Err(DoesNotExist(root))
    ensures path.NotADirectory? ==> r == Err(NotDirectory(root))
    ensures path.Directory? ==> r == Ok(Grouped(Pairs(path.entries, LooseKey(root))))
  {
    match path
    case Missing =>
      return Err(DoesNotExist(root));
    case NotADirectory =>
      return Err(NotDirectory(root));
    case Directory(entries) =>
      var groups := Collect(entries, LooseKey(root));
      return Ok(groups);
  }

  /** `extract_channel_marker_info(directory)` */
  method ExtractChannelMarkerInfo(root: string, path: PathKind) returns (r: Result<Groups, ScanError>)
    ensures path.Missing? ==> r == Err(DoesNotExist(root))
    ensures path.NotADirectory? ==> r == Err(NotDirectory(root))
    ensures path.Directory? ==> r == Ok(Grouped(Pairs(path.entries, InfoKey())))
  {
    match path
    case Missing =>
      return Err(DoesNotExist(root));
    case NotADirectory =>
      return Err(NotDirectory(root));
    case Directory(entries) =>
      var groups := Collect(entries, InfoKey());
      return Ok(groups);
  }

  /* ---------------- properties of the filing ---------------- */

  /** The sorted lists, listed by ascending region, are `Grouped(pairs)`. */
  lemma ItemsAreGrouped(pairs: seq<Filed>, keys: seq<string>, lists: map<string, seq<string>>, items: Groups)
    requires keys == KeysInOrder(pairs)
    requires forall k | k in lists :: lists[k] == Sort(ValuesOf(pairs, k))
    requires |items| == |keys|
    requires forall i | 0 <= i < |items| ::
      Sort(keys)[i] in lists && items[i] == (Sort(keys)[i], lists[Sort(keys)[i]])
    ensures items == Grouped(pairs)
  {
    assert |Sort(keys)| == |multiset(Sort(keys))| == |keys|;
  }

  lemma PairsStep(entries: seq<Entry>, i: nat, key: string -> Option<Filed>)
    requires i < |entries|
    ensures Pairs(entries[..i + 1], key) == Pairs(entries[..i], key)
      + (if entries[i].isFile && key(entries[i].name).Some? then [key(entries[i].name).value] else [])
  {
    assert entries[..i + 1][..i] == entries[..i];
  }

  /** Filing one more value appends it to its region's list, and adds the
      region as the last key when it is new. */
  lemma FiledStep(pairs: seq<Filed>, x: Filed)
    ensures KeysInOrder(pairs + [x])
      == if x.0 in KeysInOrder(pairs) then KeysInOrder(pairs) else KeysInOrder(pairs) + [x.0]
    ensures forall k :: ValuesOf(pairs + [x], k) == ValuesOf(pairs, k) + (if x.0 == k then [x.1] else [])
  {
    assert (pairs + [x])[..|pairs|] == pairs;
  }

  /** The keys of the `defaultdict` are distinct, and a region is a key
      exactly when something was filed under it. */
  lemma {:induction false} KeysInOrderNoDup(pairs: seq<Filed>)
    ensures NoDup(KeysInOrder(pairs))
    ensures forall k :: k in KeysInOrder(pairs) <==> ValuesOf(pairs, k) != []
    decreases |pairs|
  {
    if |pairs| > 0 {
      KeysInOrderNoDup(pairs[..|pairs| - 1]);
    }
  }

  /** Each list holds every value filed under its region, as often as it
      was filed. */
  lemma {:induction false} ValuesOfCount(pairs: seq<Filed>, k: string, v: string)
    ensures multiset(ValuesOf(pairs, k))[v] == multiset(pairs)[(k, v)]
    decreases |pairs|
  {
    if |pairs| > 0 {
      var init := pairs[..|pairs| - 1];
      ValuesOfCount(init, k, v);
      assert pairs == init + [pairs[|pairs| - 1]];
    }
  }

  lemma SortedNoDupIsStrict(s: seq<string>)
    requires Sorted(s) && NoDup(s)
    ensures StrictlySorted(s)
  {
  }

  lemma {:induction false} NoDupCount(s: seq<string>, x: string)
    requires NoDup(s)
    ensures multiset(s)[x] <= 1
    decreases |s|
  {
    if |s| > 0 {
      var init := s[..|s| - 1];
      NoDupCount(init, x);
      assert s == init + [s[|s| - 1]];
      if s[|s| - 1] == x {
        assert x !in init;
      }
    }
  }

  /** A repeat is counted twice. */
  lemma RepeatCountsTwice(s: seq<string>, i: nat, j: nat)
    requires i < j < |s|
    ensures s[i] == s[j] ==> multiset(s)[s[i]] >= 2
  {
    assert s == s[..i] + [s[i]] + s[i + 1..j] + [s[j]] + s[j + 1..];
  }

  /** A permutation of a list without repeats has none. */
  lemma NoDupPermutation(s: seq<string>, t: seq<string>)
    requires NoDup(s) && multiset(s) == multiset(t)
    ensures NoDup(t)
  {
    forall i, j | 0 <= i < j < |t|
      ensures t[i] != t[j]
    {
      RepeatCountsTwice(t, i, j);
      NoDupCount(s, t[i]);
    }
  }

  /** The regions of the returned dict, in order. */
  function Regions(g: Groups): seq<string> {
    seq(|g|, i requires 0 <= i < |g| => g[i].0)
  }

  /** `k in pairs` by region. */
  predicate Carries(pairs: seq<Filed>, k: string) {
    exists j | 0 <= j < |pairs| :: pairs[j].0 == k
  }

  /** The regions of the returned dict are strictly ascending, and they are
      the regions something was filed under. */
  lemma GroupedRegions(pairs: seq<Filed>)
    ensures StrictlySorted(Regions(Grouped(pairs)))
    ensures forall k :: k in Regions(Grouped(pairs)) <==> Carries(pairs, k)
  {
    var g, ks := Grouped(pairs), Sort(KeysInOrder(pairs));
    KeysInOrderNoDup(pairs);
    NoDupPermutation(KeysInOrder(pairs), ks);
    assert Regions(g) == ks;
    SortedNoDupIsStrict(ks);
    forall k
      ensures k in ks <==> Carries(pairs, k)
    {
      ValuesOfMember(pairs, k);
      assert k in ks <==> k in multiset(KeysInOrder(pairs));
    }
  }

  /** Every list of the returned dict is non-empty and ascending, and holds
      every value filed under its region as often as it was filed. */
  lemma GroupedLists(pairs: seq<Filed>)
    ensures forall i | 0 <= i < |Grouped(pairs)| ::
      Grouped(pairs)[i].1 != [] && Sorted(Grouped(pairs)[i].1)
    ensures forall i, v | 0 <= i < |Grouped(pairs)| ::
      multiset(Grouped(pairs)[i].1)[v] == multiset(pairs)[(Grouped(pairs)[i].0, v)]
  {
    var g, ks := Grouped(pairs), Sort(KeysInOrder(pairs));
    KeysInOrderNoDup(pairs);
    forall i, v | 0 <= i < |g|
      ensures multiset(g[i].1)[v] == multiset(pairs)[(g[i].0, v)]
    {
      ValuesOfCount(pairs, ks[i], v);
    }
    forall i | 0 <= i < |g|
      ensures g[i].1 != []
    {
      assert ks[i] in multiset(KeysInOrder(pairs));
      assert multiset(g[i].1) == multiset(ValuesOf(pairs, ks[i]));
    }
  }

  /** Something is filed under `k` exactly when some pair carries `k`. */
  lemma {:induction false} ValuesOfMember(pairs: seq<Filed>, k: string)
    ensures ValuesOf(pairs, k) != [] <==> Carries(pairs, k)
    decreases |pairs|
  {
    if |pairs| > 0 {
      var init := pairs[..|pairs| - 1];
      ValuesOfMember(init, k);
      if exists j | 0 <= j < |init| :: init[j].0 == k {
        var j :| 0 <= j < |init| && init[j].0 == k;
        assert pairs[j].0 == k;
      }
      if exists j | 0 <= j < |pairs| :: pairs[j].0 == k {
        var j :| 0 <= j < |pairs| && pairs[j].0 == k;
        if j < |init| {
          assert init[j].0 == k;
        }
      }
    }
  }

  /** Scanning two stretches of a listing files what scanning each files. */
  lemma {:induction false} PairsAppend(a: seq<Entry>, b: seq<Entry>, key: string -> Option<Filed>)
    ensures Pairs(a + b, key) == Pairs(a, key) + Pairs(b, key)
    decreases |b|
  {
    if |b| == 0 {
      assert a + b == a;
    } else {
      var init := b[..|b| - 1];
      PairsAppend(a, init, key);
      assert (a + b)[..|a + b| - 1] == a + init;
    }
  }

  /** Taking out the element at `i` takes one copy out of the multiset. */
  lemma RemoveAt<T>(s: seq<T>, i: nat)
    requires i < |s|
    ensures s == s[..i] + ([s[i]] + s[i + 1..])
    ensures multiset(s[..i] + s[i + 1..]) == multiset(s) - multiset{s[i]}
  {
    assert s == s[..i] + [s[i]] + s[i + 1..];
  }

  lemma {:induction false} PairsPermutation(e1: seq<Entry>, e2: seq<Entry>, key: string -> Option<Filed>)
    requires multiset(e1) == multiset(e2)
    ensures multiset(Pairs(e1, key)) == multiset(Pairs(e2, key))
    decreases |e1|
  {
    if |e1| == 0 {
      assert |e2| == |multiset(e2)| == 0;
    } else {
      var last := |e1| - 1;
      var x, init := e1[last], e1[..last];
      assert e1 == init + [x];
      assert multiset(init) == multiset(e1) - multiset{x};
      assert x in multiset(e2);
      var i :| 0 <= i < |e2| && e2[i] == x;
      var front, back := e2[..i], e2[i + 1..];
      RemoveAt(e2, i);
      PairsPermutation(init, front + back, key);
      PairsAround(front, x, back, key);
      PairsAppend(init, [x], key);
      assert multiset(Pairs(e1, key)) == multiset(Pairs(init, key)) + multiset(Pairs([x], key));
    }
  }

  lemma PairsAround(front: seq<Entry>, x: Entry, back: seq<Entry>, key: string -> Option<Filed>)
    ensures multiset(Pairs(front + ([x] + back), key))
         == multiset(Pairs(front + back, key)) + multiset(Pairs([x], key))
  {
    PairsAppend(front, [x] + back, key);
    PairsAppend([x], back, key);
    PairsAppend(front, back, key);
  }

  lemma ValuesPermutation(p1: seq<Filed>, p2: seq<Filed>, k: string)
    requires multiset(p1) == multiset(p2)
    ensures multiset(ValuesOf(p1, k)) == multiset(ValuesOf(p2, k))
  {
    forall v
      ensures multiset(ValuesOf(p1, k))[v] == multiset(ValuesOf(p2, k))[v]
    {
      ValuesOfCount(p1, k, v);
      ValuesOfCount(p2, k, v);
    }
  }

  lemma KeysPermutation(p1: seq<Filed>, p2: seq<Filed>)
    requires multiset(p1) == multiset(p2)
    ensures multiset(KeysInOrder(p1)) == multiset(KeysInOrder(p2))
  {
    var k1, k2 := KeysInOrder(p1), KeysInOrder(p2);
    KeysInOrderNoDup(p1);
    KeysInOrderNoDup(p2);
    forall k
      ensures multiset(k1)[k] == multiset(k2)[k]
    {
      NoDupCount(k1, k);
      NoDupCount(k2, k);
      ValuesPermutation(p1, p2, k);
      assert |ValuesOf(p1, k)| == |multiset(ValuesOf(p1, k))| == |ValuesOf(p2, k)|;
    }
  }

  /** What is filed under a region depends on how often each pair was
      filed, not on the filing order. */
  lemma GroupedPermutation(p1: seq<Filed>, p2: seq<Filed>)
    requires multiset(p1) == multiset(p2)
    ensures Grouped(p1) == Grouped(p2)
  {
    KeysPermutation(p1, p2);
    SortedUnique(Sort(KeysInOrder(p1)), Sort(KeysInOrder(p2)));
    var ks := Sort(KeysInOrder(p1));
    forall i | 0 <= i < |ks|
      ensures Sort(ValuesOf(p1, ks[i])) == Sort(ValuesOf(p2, ks[i]))
    {
      ValuesPermutation(p1, p2, ks[i]);
      SortedUnique(Sort(ValuesOf(p1, ks[i])), Sort(ValuesOf(p2, ks[i])));
    }
  }

  /** Both scans return the same dict whatever order `iterdir` lists the
      directory in. */
  lemma ListingOrderIrrelevant(e1: seq<Entry>, e2: seq<Entry>, key: string -> Option<Filed>)
    requires multiset(e1) == multiset(e2)
    ensures Grouped(Pairs(e1, key)) == Grouped(Pairs(e2, key))
  {
    PairsPermutation(e1, e2, key);
    GroupedPermutation(Pairs(e1, key), Pairs(e2, key));
  }

  /** A pair is filed exactly when a file entry's name yields it. */
  lemma {:induction false} PairsMember(entries: seq<Entry>, key: string -> Option<Filed>, x: Filed)
    ensures x in Pairs(entries, key) <==>
      exists i | 0 <= i < |entries| :: entries[i].isFile && key(entries[i].name) == Some(x)
    decreases |entries|
  {
    if |entries| > 0 {
      var init := entries[..|entries| - 1];
      PairsMember(init, key, x);
      if exists i | 0 <= i < |init| :: init[i].isFile && key(init[i].name) == Some(x) {
        var i :| 0 <= i < |init| && init[i].isFile && key(init[i].name) == Some(x);
        assert entries[i] == init[i];
      }
      if exists i | 0 <= i < |entries| :: entries[i].isFile && key(entries[i].name) == Some(x) {
        var i :| 0 <= i < |entries| && entries[i].isFile && key(entries[i].name) == Some(x);
        if i < |init| {
          assert init[i] == entries[i];
        }
      }
    }
  }

  lemma PathOfInjective(root: string, a: string, b: string)
    ensures PathOf(root, a) == PathOf(root, b) <==> a == b
  {
    if PathOf(root, a) == PathOf(root, b) {
      assert PathOf(root, a)[|root| + 1..] == a;
      assert PathOf(root, b)[|root| + 1..] == b;
    }
  }

  /** A file's path is in a region's list of the loose scan exactly when
      the directory lists a file of that name and the loose pattern
      captures that region from it. */
  lemma LooseGroupMember(root: string, entries: seq<Entry>, i: nat, name: string)
    requires i < |Grouped(Pairs(entries, LooseKey(root)))|
    ensures var g := Grouped(Pairs(entries, LooseKey(root)));
      PathOf(root, name) in g[i].1 <==> Entry(name, true) in entries && LooseRegion(name) == Some(g[i].0)
  {
    var pairs := Pairs(entries, LooseKey(root));
    var g := Grouped(pairs);
    var x := (g[i].0, PathOf(root, name));
    GroupedLists(pairs);
    assert PathOf(root, name) in g[i].1 <==> x in pairs by {
      assert multiset(g[i].1)[x.1] == multiset(pairs)[x];
    }
    PairsMember(entries, LooseKey(root), x);
    forall j | 0 <= j < |entries|
      ensures (entries[j].isFile && LooseKey(root)(entries[j].name) == Some(x))
          <==> (entries[j] == Entry(name, true) && LooseRegion(name) == Some(g[i].0))
    {
      PathOfInjective(root, entries[j].name, name);
    }
  }

  /** Within a region, the loose scan's paths share the directory prefix,
      so they are in the order of their file names. */
  lemma PathsInNameOrder(root: string, a: string, b: string)
    ensures Below(PathOf(root, a), PathOf(root, b)) <==> Below(a, b)
  {
    assert PathOf(root, a) == (root + "/") + a;
    assert PathOf(root, b) == (root + "/") + b;
    BelowCommonPrefix(root + "/", a, b);
  }

  /** The round text is digits and dots, so it holds no underscore. */
  lemma RoundTextHasNoUnderscore(r: Round)
    requires RoundOk(r)
    ensures '_' !in RoundText(r)
  {
    assert forall i | 0 <= i < |r.major| :: r.major[i] != '_';
    assert forall i | 0 <= i < |r.minor| :: r.minor[i] != '_';
    assert forall i | 0 <= i < |r.patch| :: r.patch[i] != '_';
  }

  /** The label shown for a DAPI file's info string. */
  lemma DapiInfoLabel(r: Round)
    requires RoundOk(r)
    ensures DisplayLabel(RoundText(r) + "_DAPI") == "DAPI"
  {
    RoundTextHasNoUnderscore(r);
    assert RoundText(r) + "_DAPI" == RoundText(r) + "_" + "DAPI";
    DisplayLabelOfInfo(RoundText(r), "DAPI");
  }

  /** The label shown for a channel file's info string. */
  lemma ChannelInfoLabel(r: Round, channel: string, marker: string)
    requires RoundOk(r)
    ensures DisplayLabel(RoundText(r) + "_" + channel + "_" + marker) == channel + "_" + marker
  {
    RoundTextHasNoUnderscore(r);
    assert RoundText(r) + "_" + channel + "_" + marker == RoundText(r) + "_" + (channel + "_" + marker);
    DisplayLabelOfInfo(RoundText(r), channel + "_" + marker);
  }

  /** The label the zarr writer shows for an info string: `DAPI` for a DAPI
      file, `channel_marker` for the others. */
  lemma InfoDisplayLabel(name: string)
    requires InfoOf(name).Some?
    ensures Match(DapiPattern, name).Some? ==> DisplayLabel(InfoOf(name).value.1) == "DAPI"
    ensures Match(DapiPattern, name).None? ==>
      Match(ChannelPattern, name).Some? && Match(ChannelPattern, name).value.part.Stained?
      && DisplayLabel(InfoOf(name).value.1)
         == Match(ChannelPattern, name).value.part.channel + "_" + Match(ChannelPattern, name).value.part.marker
  {
    var d, c := Match(DapiPattern, name), Match(ChannelPattern, name);
    if d.Some? {
      DapiInfoLabel(d.value.round);
    } else {
      ChannelInfoLabel(c.value.round, c.value.part.channel, c.value.part.marker);
    }
  }
}
