/**
  A model of the directory-tree printer `tool/make_dir_tree.py`.

  The directory is given as a finished tree instead of being read with
  `os.scandir`: a `Dir` node records whether it can be listed and, if so,
  its entries.  `PrintTree` returns the lines it would print, each kept as
  its three parts (prefix, connector, text); `Render` joins them into the
  printed string.
*/
module DirTree {

  /** A directory entry: a file, a directory, or something that is neither
      (a socket, a dangling link, ...). */
  datatype Node =
    | File(name: string)
    | Dir(name: string, readable: bool, children: seq<Node>)
    | Special(name: string)

  /** The `Config` class of the tool. */
  const ExcludeDirs: set<string> := {".git", "__pycache__", ".venv"}
  const ExcludeFiles: set<string> := {".DS_Store"}
  const ShowHidden: bool := false

  const Tee := "├─ "
  const Elbow := "└─ "
  const Pipe := "│   "
  const Blank := "    "
  const Denied := "[Permission Denied]"

  /** One printed line, `prefix + connector + text`. */
  datatype Line = Line(prefix: string, connector: string, text: string)

  function Render(l: Line): string {
    l.prefix + l.connector + l.text
  }

  predicate Hidden(name: string) {
    |name| > 0 && name[0] == '.'
  }

  /** The filter of the tool: hidden names only with `ShowHidden`, and only
      directories and files that are not excluded. */
  predicate Shown(e: Node) {
    && (ShowHidden || !Hidden(e.name))
    && ((e.Dir? && e.name !in ExcludeDirs) || (e.File? && e.name !in ExcludeFiles))
  }

  /** Python's ordering of strings: lexicographic by code point. */
  predicate NameLe(a: string, b: string)
    decreases |a|
  {
    if |a| == 0 then true
    else if |b| == 0 then false
    else if a[0] != b[0] then a[0] < b[0]
    else NameLe(a[1..], b[1..])
  }

  lemma {:induction false} NameLeTotal(a: string, b: string)
    ensures NameLe(a, b) || NameLe(b, a)
    decreases |a|
  {
    if |a| > 0 && |b| > 0 && a[0] == b[0] {
      NameLeTotal(a[1..], b[1..]);
    }
  }

  lemma {:induction false} NameLeTransitive(a: string, b: string, c: string)
    requires NameLe(a, b) && NameLe(b, c)
    ensures NameLe(a, c)
    decreases |a|
  {
    if |a| > 0 && |b| > 0 && |c| > 0 && a[0] == b[0] == c[0] {
      NameLeTransitive(a[1..], b[1..], c[1..]);
    }
  }

  ghost predicate SortedByName(s: seq<Node>) {
    forall i, j :: 0 <= i < j < |s| ==> NameLe(s[i].name, s[j].name)
  }

  /** A sorted sequence stays sorted with a smallest entry put in front. */
  lemma SortedCons(x: Node, s: seq<Node>)
    requires SortedByName(s)
    requires forall y :: y in s ==> NameLe(x.name, y.name)
    ensures SortedByName([x] + s)
  {
    forall i, j | 0 <= i < j < |[x] + s|
      ensures NameLe(([x] + s)[i].name, ([x] + s)[j].name)
    {
      assert ([x] + s)[j] == s[j - 1];
      if i > 0 {
        assert ([x] + s)[i] == s[i - 1];
      } else {
        assert s[j - 1] in s;
      }
    }
  }

  /** The head of a non-empty sorted sequence bounds its sorted tail. */
  lemma SortedSplit(s: seq<Node>)
    requires SortedByName(s) && s != []
    ensures SortedByName(s[1..])
    ensures forall y :: y in s[1..] ==> NameLe(s[0].name, y.name)
  {
    forall y | y in s[1..]
      ensures NameLe(s[0].name, y.name)
    {
      var j :| 0 <= j < |s[1..]| && s[1..][j] == y;
      assert s[j + 1] == y;
    }
  }

  /** A lower bound of the head of a sorted sequence bounds all of it. */
  lemma BelowHead(x: Node, s: seq<Node>)
    requires SortedByName(s) && s != []
    requires NameLe(x.name, s[0].name)
    ensures forall y :: y in s ==> NameLe(x.name, y.name)
  {
    forall y | y in s
      ensures NameLe(x.name, y.name)
    {
      var j :| 0 <= j < |s| && s[j] == y;
      if j > 0 {
        NameLeTransitive(x.name, s[0].name, y.name);
      }
    }
  }

  /** A bound of every entry of `tail` and of `x` bounds any permutation of
      `tail` with `x` added. */
  lemma BoundsPermutation(h: Node, x: Node, tail: seq<Node>, rest: seq<Node>)
    requires NameLe(h.name, x.name)
    requires forall y :: y in tail ==> NameLe(h.name, y.name)
    requires multiset(rest) == multiset(tail) + multiset{x}
    ensures forall y :: y in rest ==> NameLe(h.name, y.name)
  {
    forall y | y in rest
      ensures NameLe(h.name, y.name)
    {
      assert y in multiset(rest);
      if y != x {
        assert y in multiset(tail);
      }
    }
  }

  /** Inserts `x` before the first entry whose name is not smaller. */
  function Insert(x: Node, s: seq<Node>): (r: seq<Node>)
    requires SortedByName(s)
    ensures SortedByName(r)
    ensures multiset(r) == multiset(s) + multiset{x}
    decreases |s|
  {
    if s == [] then [x]
    else if NameLe(x.name, s[0].name) then
      BelowHead(x, s);
      SortedCons(x, s);
      [x] + s
    else
      NameLeTotal(x.name, s[0].name);
      SortedSplit(s);
      var rest := Insert(x, s[1..]);
      BoundsPermutation(s[0], x, s[1..], rest);
      SortedCons(s[0], rest);
      assert s == [s[0]] + s[1..];
      [s[0]] + rest
  }

  /** `sorted(..., key=lambda e: e.name)`: a stable insertion sort by name. */
  function SortByName(s: seq<Node>): (r: seq<Node>)
    ensures SortedByName(r)
    ensures multiset(r) == multiset(s)
    decreases |s|
  {
    if s == [] then []
    else
      assert s == [s[0]] + s[1..];
      Insert(s[0], SortByName(s[1..]))
  }

  /** The shown directories among `s`, in order. */
  function ShownDirs(s: seq<Node>): (r: seq<Node>)
    ensures forall e :: multiset(r)[e] == if e.Dir? && Shown(e) then multiset(s)[e] else 0
    ensures forall e :: e in r ==> e.Dir? && Shown(e)
    decreases |s|
  {
    if s == [] then []
    else
      assert s == [s[0]] + s[1..];
      (if s[0].Dir? && Shown(s[0]) then [s[0]] else []) + ShownDirs(s[1..])
  }

  /** The shown files among `s`, in order. */
  function ShownFiles(s: seq<Node>): (r: seq<Node>)
    ensures forall e :: multiset(r)[e] == if e.File? && Shown(e) then multiset(s)[e] else 0
    ensures forall e :: e in r ==> e.File? && Shown(e)
    decreases |s|
  {
    if s == [] then []
    else
      assert s == [s[0]] + s[1..];
      (if s[0].File? && Shown(s[0]) then [s[0]] else []) + ShownFiles(s[1..])
  }

  /** Sorting keeps the members; a sorted list of directories followed by a
      sorted list of files is ordered as the tool prints it. */
  lemma SortedGroups(ds: seq<Node>, fs: seq<Node>)
    requires forall e :: e in ds ==> e.Dir?
    requires forall e :: e in fs ==> e.File?
    requires SortedByName(ds) && SortedByName(fs)
    ensures var r := ds + fs;
            && (forall i :: 0 <= i < |r| ==> r[i].Dir? || r[i].File?)
            && (forall i, j :: 0 <= i < j < |r| && r[j].Dir? ==> r[i].Dir?)
            && (forall i, j :: 0 <= i < j < |r| && r[i].Dir? == r[j].Dir? ==> NameLe(r[i].name, r[j].name))
  {
    var r := ds + fs;
    forall i | 0 <= i < |r|
      ensures r[i].Dir? <==> i < |ds|
    {
      if i < |ds| {
        assert r[i] == ds[i] && ds[i] in ds;
      } else {
        assert r[i] == fs[i - |ds|] && fs[i - |ds|] in fs;
      }
    }
  }

  /** The entries of one level as printed: filtered, then the directories
      sorted by name, then the files sorted by name. */
  function Arrange(children: seq<Node>): (r: seq<Node>)
    // exactly the shown entries, each as often as it occurs
    ensures forall e :: multiset(r)[e] == if Shown(e) then multiset(children)[e] else 0
    ensures forall e :: e in r <==> e in children && Shown(e)
    // directories first, then files, each group in ascending name order
    ensures forall i :: 0 <= i < |r| ==> r[i].Dir? || r[i].File?
    ensures forall i, j :: 0 <= i < j < |r| && r[j].Dir? ==> r[i].Dir?
    ensures forall i, j :: 0 <= i < j < |r| && r[i].Dir? == r[j].Dir? ==> NameLe(r[i].name, r[j].name)
  {
    var shownDirs := ShownDirs(children);
    var shownFiles := ShownFiles(children);
    var dirs := SortByName(shownDirs);
    var files := SortByName(shownFiles);
    SortedGroups(dirs, files);
    var r := dirs + files;
    forall e
      ensures multiset(r)[e] == if Shown(e) then multiset(children)[e] else 0
      ensures e in r <==> e in children && Shown(e)
    {
      calc {
        multiset(r)[e];
        multiset(dirs)[e] + multiset(files)[e];
        multiset(shownDirs)[e] + multiset(shownFiles)[e];
      }
      assert e in r <==> multiset(r)[e] > 0;
      assert e in children <==> multiset(children)[e] > 0;
    }
    r
  }

  function Connector(i: nat, n: nat): string {
    if i == n - 1 then Elbow else Tee
  }

  function Extension(i: nat, n: nat): string {
    if i == n - 1 then Blank else Pipe
  }

  /** `print_tree(dir, prefix)`. */
  function PrintTree(d: Node, prefix: string): seq<Line>
    requires d.Dir?
    decreases d, 1
  {
    if !d.readable then [Line(prefix, Elbow, Denied)]
    else Level(d, Arrange(d.children), 0, prefix)
  }

  /** What entry `k` of `n` prints below its own line: a directory's listing
      with the prefix extended for its position, nothing for a file. */
  function Contents(e: Node, k: nat, n: nat, prefix: string): seq<Line>
    decreases e, 2
  {
    if e.Dir? then PrintTree(e, prefix + Extension(k, n)) else []
  }

  /** The loop of `print_tree` from entry `i` of the arranged `entries` on. */
  function Level(parent: Node, entries: seq<Node>, i: nat, prefix: string): seq<Line>
    requires parent.Dir? && i <= |entries|
    requires forall e :: e in entries ==> e in parent.children
    decreases parent, 0, |entries| - i
  {
    if i == |entries| then []
    else
      var e := entries[i];
      assert e in parent.children;
      [Line(prefix, Connector(i, |entries|), e.name)]
      + Contents(e, i, |entries|, prefix)
      + Level(parent, entries, i + 1, prefix)
  }

  /** What every printed line looks like below a prefix. */
  ghost predicate WellFormedLine(l: Line, prefix: string) {
    && prefix <= l.prefix
    && (l.connector == Tee || l.connector == Elbow)
    && !Hidden(l.text)
  }

  /** Every line printed for a directory starts with the prefix it was given,
      carries one of the two connectors, and never shows a hidden name; an
      unreadable directory prints the permission line and nothing else. */
  lemma {:induction false} TreeLinesWellFormed(d: Node, prefix: string)
    requires d.Dir?
    ensures !d.readable ==> PrintTree(d, prefix) == [Line(prefix, Elbow, Denied)]
    ensures forall l :: l in PrintTree(d, prefix) ==> WellFormedLine(l, prefix)
    decreases d, 1
  {
    if d.readable {
      LevelLinesWellFormed(d, Arrange(d.children), 0, prefix);
    } else {
      assert !Hidden(Denied);
    }
  }

  /** Lines well formed under a longer prefix are well formed under a
      shorter one it starts with. */
  lemma WellFormedUnderPrefix(lines: seq<Line>, prefix: string, ext: string)
    requires prefix <= ext
    requires forall l :: l in lines ==> WellFormedLine(l, ext)
    ensures forall l :: l in lines ==> WellFormedLine(l, prefix)
  {
    forall l | l in lines
      ensures WellFormedLine(l, prefix)
    {
      assert WellFormedLine(l, ext);
      assert l.prefix[..|prefix|] == ext[..|prefix|] == prefix;
    }
  }

  lemma WellFormedConcat(head: seq<Line>, nested: seq<Line>, rest: seq<Line>, prefix: string)
    requires forall l :: l in head ==> WellFormedLine(l, prefix)
    requires forall l :: l in nested ==> WellFormedLine(l, prefix)
    requires forall l :: l in rest ==> WellFormedLine(l, prefix)
    ensures forall l :: l in head + nested + rest ==> WellFormedLine(l, prefix)
  {
    forall l | l in head + nested + rest
      ensures WellFormedLine(l, prefix)
    {
      assert l in head || l in nested || l in rest;
    }
  }

  lemma {:induction false} LevelLinesWellFormed(parent: Node, entries: seq<Node>, i: nat, prefix: string)
    requires parent.Dir? && i <= |entries|
    requires forall e :: e in entries ==> e in parent.children && Shown(e)
    ensures forall l :: l in Level(parent, entries, i, prefix) ==> WellFormedLine(l, prefix)
    decreases parent, 0, |entries| - i
  {
    if i < |entries| {
      var e := entries[i];
      assert e in parent.children;
      var head := [Line(prefix, Connector(i, |entries|), e.name)];
      var ext := prefix + Extension(i, |entries|);
      var nested := Contents(e, i, |entries|, prefix);
      var rest := Level(parent, entries, i + 1, prefix);
      assert Level(parent, entries, i, prefix) == head + nested + rest;
      if e.Dir? {
        TreeLinesWellFormed(e, ext);
        WellFormedUnderPrefix(nested, prefix, ext);
      }
      LevelLinesWellFormed(parent, entries, i + 1, prefix);
      assert !Hidden(e.name);
      assert WellFormedLine(head[0], prefix);
      WellFormedConcat(head, nested, rest, prefix);
    }
  }

  /** The lines whose prefix is exactly `width` characters long: the lines of
      the level printed with a prefix of that length. */
  function TopLines(lines: seq<Line>, width: nat): seq<Line>
    decreases |lines|
  {
    if lines == [] then []
    else (if |lines[0].prefix| == width then [lines[0]] else []) + TopLines(lines[1..], width)
  }

  lemma {:induction false} TopLinesAppend(a: seq<Line>, b: seq<Line>, width: nat)
    ensures TopLines(a + b, width) == TopLines(a, width) + TopLines(b, width)
    decreases |a|
  {
    if a == [] {
      assert a + b == b;
    } else {
      assert (a + b)[0] == a[0];
      assert (a + b)[1..] == a[1..] + b;
      TopLinesAppend(a[1..], b, width);
    }
  }

  lemma {:induction false} TopLinesNone(a: seq<Line>, width: nat)
    requires forall l :: l in a ==> |l.prefix| > width
    ensures TopLines(a, width) == []
    decreases |a|
  {
    if a != [] {
      TopLinesNone(a[1..], width);
    }
  }

  /** The nested lines of an entry add nothing at the level's own width. */
  lemma LevelHeadStep(parent: Node, entries: seq<Node>, i: nat, prefix: string)
    requires parent.Dir? && i < |entries|
    requires forall e :: e in entries ==> e in parent.children && Shown(e)
    ensures TopLines(Level(parent, entries, i, prefix), |prefix|)
         == [Line(prefix, Connector(i, |entries|), entries[i].name)] + TopLines(Level(parent, entries, i + 1, prefix), |prefix|)
  {
    var e := entries[i];
    var head := [Line(prefix, Connector(i, |entries|), e.name)];
    var ext := prefix + Extension(i, |entries|);
    var nested := Contents(e, i, |entries|, prefix);
    var rest := Level(parent, entries, i + 1, prefix);
    assert Level(parent, entries, i, prefix) == head + nested + rest;
    if e.Dir? {
      TreeLinesWellFormed(e, ext);
      assert |ext| == |prefix| + 4;
      forall l | l in nested
        ensures |l.prefix| > |prefix|
      {
        assert WellFormedLine(l, ext);
      }
    }
    TopLinesNone(nested, |prefix|);
    TopLinesAppend(head + nested, rest, |prefix|);
    TopLinesAppend(head, nested, |prefix|);
    assert TopLines(head, |prefix|) == head;
  }

  /** `tops` are the level lines of the entries from `i` on: one per entry,
      in order, with its connector and name. */
  ghost predicate HeadsFrom(tops: seq<Line>, entries: seq<Node>, i: nat, prefix: string) {
    && |tops| == |entries| - i
    && forall k :: i <= k < |entries| ==> tops[k - i] == Line(prefix, Connector(k, |entries|), entries[k].name)
  }

  lemma HeadsCons(tops: seq<Line>, entries: seq<Node>, i: nat, prefix: string)
    requires i < |entries|
    requires HeadsFrom(tops, entries, i + 1, prefix)
    ensures HeadsFrom([Line(prefix, Connector(i, |entries|), entries[i].name)] + tops, entries, i, prefix)
  {
  }

  lemma {:induction false} LevelHeads(parent: Node, entries: seq<Node>, i: nat, prefix: string)
    requires parent.Dir? && i <= |entries|
    requires forall e :: e in entries ==> e in parent.children && Shown(e)
    ensures HeadsFrom(TopLines(Level(parent, entries, i, prefix), |prefix|), entries, i, prefix)
    decreases |entries| - i
  {
    if i < |entries| {
      LevelHeadStep(parent, entries, i, prefix);
      LevelHeads(parent, entries, i + 1, prefix);
      HeadsCons(TopLines(Level(parent, entries, i + 1, prefix), |prefix|), entries, i, prefix);
    }
  }

  /** Every nested line `j` of a level belongs to the entry of the last
      level line before it: that entry is a directory, and the nested line's
      prefix extends the level's prefix by that entry's extension. */
  ghost predicate NestedUnderOwner(lines: seq<Line>, entries: seq<Node>, i: nat, prefix: string) {
    forall j :: 0 <= j < |lines| ==> OwnedAt(lines, entries, i, prefix, j)
  }

  /** Line `j` is either at the level's own width or nested under the
      directory entry most recently printed at that width. */
  ghost predicate OwnedAt(lines: seq<Line>, entries: seq<Node>, i: nat, prefix: string, j: nat)
    requires j < |lines|
  {
    |lines[j].prefix| != |prefix| ==>
      var k := i + |TopLines(lines[..j], |prefix|)| - 1;
      && i <= k < |entries|
      && entries[k].Dir?
      && prefix + Extension(k, |entries|) <= lines[j].prefix
  }

  lemma OwnerInNested(head: seq<Line>, nested: seq<Line>, rest: seq<Line>, j: nat, w: nat, ext: string)
    requires |head| == 1 && |head[0].prefix| == w
    requires forall l :: l in nested ==> ext <= l.prefix && |l.prefix| > w
    requires 1 <= j <= |nested|
    ensures |TopLines((head + nested + rest)[..j], w)| == 1
    ensures ext <= (head + nested + rest)[j].prefix
  {
    var lines := head + nested + rest;
    assert lines[j] == nested[j - 1];
    assert lines[..j] == head + nested[..j - 1];
    TopLinesAppend(head, nested[..j - 1], w);
    TopLinesNone(nested[..j - 1], w);
    assert TopLines(head, w) == head;
  }

  lemma OwnerInRest(head: seq<Line>, nested: seq<Line>, rest: seq<Line>, j: nat, w: nat)
    requires |head| == 1 && |head[0].prefix| == w
    requires forall l :: l in nested ==> |l.prefix| > w
    requires |head| + |nested| <= j < |head| + |nested| + |rest|
    ensures (head + nested + rest)[j] == rest[j - 1 - |nested|]
    ensures |TopLines((head + nested + rest)[..j], w)| == 1 + |TopLines(rest[..j - 1 - |nested|], w)|
  {
    var lines := head + nested + rest;
    var jr := j - 1 - |nested|;
    assert lines[..j] == (head + nested) + rest[..jr];
    TopLinesAppend(head + nested, rest[..jr], w);
    TopLinesAppend(head, nested, w);
    TopLinesNone(nested, w);
    assert TopLines(head, w) == head;
  }

  lemma OwnedInNested(head: seq<Line>, nested: seq<Line>, rest: seq<Line>,
                      entries: seq<Node>, i: nat, prefix: string, j: nat)
    requires i < |entries|
    requires head == [Line(prefix, Connector(i, |entries|), entries[i].name)]
    requires nested != [] ==> entries[i].Dir?
    requires forall l :: l in nested ==> prefix + Extension(i, |entries|) <= l.prefix && |l.prefix| > |prefix|
    requires 1 <= j <= |nested|
    ensures OwnedAt(head + nested + rest, entries, i, prefix, j)
  {
    OwnerInNested(head, nested, rest, j, |prefix|, prefix + Extension(i, |entries|));
  }

  lemma OwnedInRest(head: seq<Line>, nested: seq<Line>, rest: seq<Line>,
                    entries: seq<Node>, i: nat, prefix: string, j: nat)
    requires |head| == 1 && |head[0].prefix| == |prefix|
    requires forall l :: l in nested ==> |l.prefix| > |prefix|
    requires NestedUnderOwner(rest, entries, i + 1, prefix)
    requires |head| + |nested| <= j < |head| + |nested| + |rest|
    ensures OwnedAt(head + nested + rest, entries, i, prefix, j)
  {
    OwnerInRest(head, nested, rest, j, |prefix|);
    assert OwnedAt(rest, entries, i + 1, prefix, j - 1 - |nested|);
  }

  /** Ownership of a level's lines from the ownership of the lines after its
      first entry. */
  lemma OwnerCombine(head: seq<Line>, nested: seq<Line>, rest: seq<Line>,
                     entries: seq<Node>, i: nat, prefix: string)
    requires i < |entries|
    requires head == [Line(prefix, Connector(i, |entries|), entries[i].name)]
    requires nested != [] ==> entries[i].Dir?
    requires forall l :: l in nested ==> prefix + Extension(i, |entries|) <= l.prefix && |l.prefix| > |prefix|
    requires NestedUnderOwner(rest, entries, i + 1, prefix)
    ensures NestedUnderOwner(head + nested + rest, entries, i, prefix)
  {
    var lines := head + nested + rest;
    forall j | 0 <= j < |lines|
      ensures OwnedAt(lines, entries, i, prefix, j)
    {
      if 0 < j <= |nested| {
        OwnedInNested(head, nested, rest, entries, i, prefix, j);
      } else if j > |nested| {
        OwnedInRest(head, nested, rest, entries, i, prefix, j);
      }
    }
  }

  /** Every line an entry prints below its own line is indented past the
      level, under the extension for the entry's position. */
  lemma ContentsDeeper(e: Node, k: nat, n: nat, prefix: string)
    ensures forall l :: l in Contents(e, k, n, prefix) ==>
              prefix + Extension(k, n) <= l.prefix && |l.prefix| > |prefix|
  {
    if e.Dir? {
      var ext := prefix + Extension(k, n);
      TreeLinesWellFormed(e, ext);
      forall l | l in Contents(e, k, n, prefix)
        ensures ext <= l.prefix && |l.prefix| > |prefix|
      {
        assert WellFormedLine(l, ext);
      }
    }
  }

  lemma {:induction false} LevelNestedOwner(parent: Node, entries: seq<Node>, i: nat, prefix: string)
    requires parent.Dir? && i <= |entries|
    requires forall e :: e in entries ==> e in parent.children && Shown(e)
    ensures NestedUnderOwner(Level(parent, entries, i, prefix), entries, i, prefix)
    decreases |entries| - i
  {
    if i < |entries| {
      var e := entries[i];
      var head := [Line(prefix, Connector(i, |entries|), e.name)];
      var ext := prefix + Extension(i, |entries|);
      var nested := Contents(e, i, |entries|, prefix);
      var rest := Level(parent, entries, i + 1, prefix);
      assert Level(parent, entries, i, prefix) == head + nested + rest;
      ContentsDeeper(e, i, |entries|, prefix);
      LevelNestedOwner(parent, entries, i + 1, prefix);
      OwnerCombine(head, nested, rest, entries, i, prefix);
    }
  }

  /** The lines printed at the directory's own level are its shown entries, in
      printing order, each with its name; the last one gets the closing
      connector and every other one the branching connector. */
  lemma TopLevelEntries(d: Node, prefix: string)
    requires d.Dir? && d.readable
    ensures var entries := Arrange(d.children);
            var tops := TopLines(PrintTree(d, prefix), |prefix|);
            && |tops| == |entries|
            && forall k :: 0 <= k < |entries| ==> tops[k] == Line(prefix, Connector(k, |entries|), entries[k].name)
  {
    LevelHeads(d, Arrange(d.children), 0, prefix);
  }

  /** Every line printed below a directory's own level belongs to the last
      entry printed at that level before it; that entry is a directory and
      the line's prefix extends the level's prefix by `"    "` when the entry
      is the last one and by `"│   "` otherwise. */
  lemma NestedLinesFollowOwner(d: Node, prefix: string)
    requires d.Dir? && d.readable
    ensures NestedUnderOwner(PrintTree(d, prefix), Arrange(d.children), 0, prefix)
  {
    LevelNestedOwner(d, Arrange(d.children), 0, prefix);
  }

  /** Line `a` of `lines`, a line at the level's own width, is the line of
      entry `k`, where `k` counts the level lines before it from entry `i`
      on; right after it come exactly the contents of entry `k`, and the line
      after those, if any, is again at the level's width. */
  ghost predicate ContentsAfter(lines: seq<Line>, entries: seq<Node>, i: nat, prefix: string, a: nat)
    requires a < |lines|
  {
    var k := i + |TopLines(lines[..a], |prefix|)|;
    && k < |entries|
    && OwnsBlock(lines, a, |prefix|, k - i, Line(prefix, Connector(k, |entries|), entries[k].name),
                 Contents(entries[k], k, |entries|, prefix))
  }

  /** Line `a` of `lines` is `l`, has `c` lines of width `w` before it, and
      is followed by exactly the block `m` and then, if anything, by a line
      of width `w`. */
  ghost predicate OwnsBlock(lines: seq<Line>, a: nat, w: nat, c: nat, l: Line, m: seq<Line>)
    requires a < |lines|
  {
    && |TopLines(lines[..a], w)| == c
    && lines[a] == l
    && a + 1 + |m| <= |lines|
    && lines[a + 1 .. a + 1 + |m|] == m
    && (a + 1 + |m| < |lines| ==> |lines[a + 1 + |m|].prefix| == w)
  }

  lemma SuffixSlice<X>(p: seq<X>, q: seq<X>, x: nat, y: nat)
    requires x <= y <= |q|
    ensures (p + q)[|p| + x .. |p| + y] == q[x..y]
  {
  }

  /** The first line of a level owns the contents right after it. */
  lemma ContentsAtHead(head: seq<Line>, nested: seq<Line>, rest: seq<Line>,
                       entries: seq<Node>, i: nat, prefix: string)
    requires i < |entries|
    requires head == [Line(prefix, Connector(i, |entries|), entries[i].name)]
    requires nested == Contents(entries[i], i, |entries|, prefix)
    requires rest != [] ==> |rest[0].prefix| == |prefix|
    ensures ContentsAfter(head + nested + rest, entries, i, prefix, 0)
  {
    var lines := head + nested + rest;
    assert lines[..0] == [];
    assert lines[1 .. 1 + |nested|] == nested;
    if 1 + |nested| < |lines| {
      assert lines[1 + |nested|] == rest[0];
    }
  }

  /** A line at the level's width after the first is not a nested one. */
  lemma LevelLineInRest(head: seq<Line>, nested: seq<Line>, rest: seq<Line>, a: nat, w: nat)
    requires |head| == 1
    requires forall l :: l in nested ==> |l.prefix| > w
    requires 0 < a < |head + nested + rest| && |(head + nested + rest)[a].prefix| == w
    ensures 1 + |nested| <= a && (head + nested + rest)[a] == rest[a - 1 - |nested|]
  {
    var lines := head + nested + rest;
    forall b | 1 <= b <= |nested|
      ensures |lines[b].prefix| > w
    {
      assert lines[b] == nested[b - 1];
      assert nested[b - 1] in nested;
    }
  }

  /** A block of lines after line `a'` of `rest` sits after line
      `|pre| + a'` of `pre + rest`. */
  lemma ShiftBlock(pre: seq<Line>, rest: seq<Line>, a': nat, m: seq<Line>, w: nat)
    requires a' + 1 + |m| <= |rest| && rest[a' + 1 .. a' + 1 + |m|] == m
    requires a' + 1 + |m| < |rest| ==> |rest[a' + 1 + |m|].prefix| == w
    ensures var a := |pre| + a';
            var lines := pre + rest;
            && lines[a] == rest[a']
            && a + 1 + |m| <= |lines| && lines[a + 1 .. a + 1 + |m|] == m
            && (a + 1 + |m| < |lines| ==> |lines[a + 1 + |m|].prefix| == w)
  {
    SuffixSlice(pre, rest, a' + 1, a' + 1 + |m|);
  }

  /** A line after the first line and the nested lines of a level is a
      line of the rest of the level, with one more level line before it and
      the same block of lines after it. */
  lemma ShiftLine(head: seq<Line>, nested: seq<Line>, rest: seq<Line>, a: nat, w: nat,
                  c: nat, l: Line, m: seq<Line>)
    requires |head| == 1 && |head[0].prefix| == w
    requires forall l :: l in nested ==> |l.prefix| > w
    requires 1 + |nested| <= a < |head + nested + rest|
    requires OwnsBlock(rest, a - 1 - |nested|, w, c, l, m)
    ensures OwnsBlock(head + nested + rest, a, w, c + 1, l, m)
  {
    OwnerInRest(head, nested, rest, a, w);
    assert head + nested + rest == (head + nested) + rest;
    ShiftBlock(head + nested, rest, a - 1 - |nested|, m, w);
  }

  /** The contents found after a level line of the later entries stay where
      they are once entry `i`'s line and contents are put in front. */
  lemma ContentsAfterShift(head: seq<Line>, nested: seq<Line>, rest: seq<Line>,
                           entries: seq<Node>, i: nat, prefix: string, a: nat)
    requires |head| == 1 && |head[0].prefix| == |prefix|
    requires forall l :: l in nested ==> |l.prefix| > |prefix|
    requires 1 + |nested| <= a < |head + nested + rest|
    requires ContentsAfter(rest, entries, i + 1, prefix, a - 1 - |nested|)
    ensures ContentsAfter(head + nested + rest, entries, i, prefix, a)
  {
    var n := |entries|;
    var a' := a - 1 - |nested|;
    var k := i + 1 + |TopLines(rest[..a'], |prefix|)|;
    ShiftLine(head, nested, rest, a, |prefix|, k - (i + 1), Line(prefix, Connector(k, n), entries[k].name),
              Contents(entries[k], k, n, prefix));
  }

  lemma {:induction false} LevelContentsAt(parent: Node, entries: seq<Node>, i: nat, prefix: string, a: nat)
    requires parent.Dir? && i <= |entries|
    requires forall e :: e in entries ==> e in parent.children && Shown(e)
    requires a < |Level(parent, entries, i, prefix)|
    requires |Level(parent, entries, i, prefix)[a].prefix| == |prefix|
    ensures ContentsAfter(Level(parent, entries, i, prefix), entries, i, prefix, a)
    decreases |entries| - i
  {
    var n := |entries|;
    var e := entries[i];
    var head := [Line(prefix, Connector(i, n), e.name)];
    var nested := Contents(e, i, n, prefix);
    var rest := Level(parent, entries, i + 1, prefix);
    assert Level(parent, entries, i, prefix) == head + nested + rest;
    ContentsDeeper(e, i, n, prefix);
    if a == 0 {
      ContentsAtHead(head, nested, rest, entries, i, prefix);
    } else {
      LevelLineInRest(head, nested, rest, a, |prefix|);
      var a' := a - 1 - |nested|;
      LevelContentsAt(parent, entries, i + 1, prefix, a');
      ContentsAfterShift(head, nested, rest, entries, i, prefix, a);
    }
  }

  /** A directory's contents are printed directly under its own line: after
      the line of entry `k` come exactly the lines of that entry's listing,
      with the prefix extended by `"    "` for the last entry and `"│   "`
      otherwise (none for a file), and then the next line of the level. */
  lemma ContentsFollowEntry(d: Node, prefix: string)
    requires d.Dir? && d.readable
    ensures var lines := PrintTree(d, prefix);
            forall a :: 0 <= a < |lines| && |lines[a].prefix| == |prefix| ==>
              ContentsAfter(lines, Arrange(d.children), 0, prefix, a)
  {
    var lines := PrintTree(d, prefix);
    forall a | 0 <= a < |lines| && |lines[a].prefix| == |prefix|
      ensures ContentsAfter(lines, Arrange(d.children), 0, prefix, a)
    {
      LevelContentsAt(d, Arrange(d.children), 0, prefix, a);
    }
  }

  function RenderAll(lines: seq<Line>): (out: seq<string>)
    ensures |out| == |lines|
    ensures forall i :: 0 <= i < |out| ==> out[i] == Render(lines[i])
  {
    seq(|lines|, i requires 0 <= i < |lines| => Render(lines[i]))
  }

  /** `main`: the absolute root path, then the tree with an empty prefix. */
  function Output(rootPath: string, root: Node): (out: seq<string>)
    requires root.Dir?
    ensures |out| > 0 && out[0] == rootPath
    ensures out[1..] == RenderAll(PrintTree(root, ""))
  {
    [rootPath] + RenderAll(PrintTree(root, ""))
  }
}
