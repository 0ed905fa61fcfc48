/**
 * De-duplication of changelog bullets across versions (`scripts/dedupe_changelog.py`).
 * The regular expressions that recognize headers and bullets and normalize a bullet's
 * text enter as an arbitrary classification of lines.
 */
module Changelog {
  import opened Options
  import opened Semver

  /** What a line is: a version header, a bullet with its normalized text, or anything else. */
  datatype Kind = Header(version: string) | Bullet(text: string) | Plain

  type Classifier = string -> Kind

  // ------------------------------------------------------------------ specification

  /** The version of the nearest header at or above a line. */
  ghost function VersionAt(f: Classifier, lines: seq<string>, i: nat): Option<string>
    requires i < |lines|
  {
    if f(lines[i]).Header? then Some(f(lines[i]).version)
    else if i == 0 then None
    else VersionAt(f, lines, i - 1)
  }

  /** Line `i` is a bullet with text `k` inside some version block. */
  ghost predicate Entry(f: Classifier, lines: seq<string>, i: nat, k: string) {
    i < |lines| && f(lines[i]) == Bullet(k) && VersionAt(f, lines, i).Some?
  }

  /** Lower version first; within a version, and between equal versions, file order. */
  ghost predicate Earlier(f: Classifier, lines: seq<string>, j: nat, i: nat)
    requires j < |lines| && i < |lines| && VersionAt(f, lines, j).Some? && VersionAt(f, lines, i).Some?
  {
    var u, v := Parse(VersionAt(f, lines, j).value), Parse(VersionAt(f, lines, i).value);
    Less(u, v) || (u == v && j < i)
  }

  /** A non-empty entry that occurs earlier as well. */
  ghost predicate Duplicate(f: Classifier, lines: seq<string>, i: nat) {
    exists j, k :: k != "" && Entry(f, lines, i, k) && Entry(f, lines, j, k) && Earlier(f, lines, j, i)
  }

  // ------------------------------------------------------------------ version blocks

  datatype Block = Block(version: string, start: nat, end: nat)

  ghost predicate GoodBlock(f: Classifier, lines: seq<string>, b: Block) {
    && b.start < b.end <= |lines|
    && f(lines[b.start]) == Header(b.version)
    && forall i :: b.start < i < b.end ==> !f(lines[i]).Header?
  }

  /** The blocks are disjoint, in file order, and cover everything from the first header on. */
  ghost predicate GoodBlocks(f: Classifier, lines: seq<string>, blocks: seq<Block>) {
    && (forall n :: 0 <= n < |blocks| ==> GoodBlock(f, lines, blocks[n]))
    && (forall m, n :: 0 <= m < n < |blocks| ==> blocks[m].end <= blocks[n].start)
    && forall i :: 0 <= i < |lines| && VersionAt(f, lines, i).Some? ==>
         exists n :: 0 <= n < |blocks| && blocks[n].start <= i < blocks[n].end
  }

  lemma {:induction false} VersionCarries(f: Classifier, lines: seq<string>, a: nat, b: nat)
    requires a <= b < |lines| && forall i :: a < i <= b ==> !f(lines[i]).Header?
    ensures VersionAt(f, lines, b) == VersionAt(f, lines, a)
    decreases b
  {
    if a == b {
    } else {
      VersionCarries(f, lines, a, b - 1);
    }
  }

  lemma {:induction false} InBlock(f: Classifier, lines: seq<string>, b: Block, i: nat)
    requires GoodBlock(f, lines, b) && b.start <= i < b.end
    ensures VersionAt(f, lines, i) == Some(b.version)
  {
    VersionCarries(f, lines, b.start, i);
  }

  /** A header index and its version. */
  datatype Head = Head(at: nat, version: string)

  ghost predicate GoodHeads(f: Classifier, lines: seq<string>, heads: seq<Head>, n: nat) {
    && n <= |lines|
    && (forall h :: 0 <= h < |heads| ==> heads[h].at < n && f(lines[heads[h].at]) == Header(heads[h].version))
    && (forall g, h :: 0 <= g < h < |heads| ==> heads[g].at < heads[h].at)
    && forall i :: 0 <= i < n && f(lines[i]).Header? ==> exists h :: 0 <= h < |heads| && heads[h].at == i
  }

  method FindVersionBlocks(f: Classifier, lines: seq<string>) returns (blocks: seq<Block>)
    ensures GoodBlocks(f, lines, blocks)
  {
    var heads: seq<Head> := [];
    for i := 0 to |lines|
      invariant GoodHeads(f, lines, heads, i)
    {
      NextHead(f, lines, heads, i);
      if f(lines[i]).Header? {
        heads := heads + [Head(i, f(lines[i]).version)];
      }
    }
    blocks := [];
    for n := 0 to |heads|
      invariant |blocks| == n
      invariant forall m :: 0 <= m < n ==> blocks[m] == BlockOf(heads, |lines|, m)
    {
      var end := if n + 1 < |heads| then heads[n + 1].at else |lines|;
      blocks := blocks + [Block(heads[n].version, heads[n].at, end)];
    }
    HeadsGiveBlocks(f, lines, heads, blocks);
  }

  lemma NextHead(f: Classifier, lines: seq<string>, heads: seq<Head>, i: nat)
    requires GoodHeads(f, lines, heads, i) && i < |lines|
    ensures f(lines[i]).Header? ==> GoodHeads(f, lines, heads + [Head(i, f(lines[i]).version)], i + 1)
    ensures !f(lines[i]).Header? ==> GoodHeads(f, lines, heads, i + 1)
  {
    if f(lines[i]).Header? {
      var more := heads + [Head(i, f(lines[i]).version)];
      forall j | 0 <= j < i + 1 && f(lines[j]).Header? ensures exists h :: 0 <= h < |more| && more[h].at == j {
        if j == i {
          assert more[|heads|].at == j;
        } else {
          var h :| 0 <= h < |heads| && heads[h].at == j;
          assert more[h].at == j;
        }
      }
    }
  }

  function BlockOf(heads: seq<Head>, n: nat, h: nat): Block
    requires h < |heads|
  {
    Block(heads[h].version, heads[h].at, if h + 1 < |heads| then heads[h + 1].at else n)
  }

  lemma HeadsGiveBlocks(f: Classifier, lines: seq<string>, heads: seq<Head>, blocks: seq<Block>)
    requires GoodHeads(f, lines, heads, |lines|) && |blocks| == |heads|
    requires forall h :: 0 <= h < |heads| ==> blocks[h] == BlockOf(heads, |lines|, h)
    ensures GoodBlocks(f, lines, blocks)
  {
    forall h | 0 <= h < |blocks| ensures GoodBlock(f, lines, blocks[h]) {
      forall i | blocks[h].start < i < blocks[h].end ensures !f(lines[i]).Header? {
      }
    }
    forall i | 0 <= i < |lines| && VersionAt(f, lines, i).Some?
      ensures exists n :: 0 <= n < |blocks| && blocks[n].start <= i < blocks[n].end
    {
      var h := HeadAbove(f, lines, heads, i);
      assert blocks[h].start <= i < blocks[h].end;
    }
  }

  /** The last header at or above a line that has a version. */
  lemma {:induction false} HeadAbove(f: Classifier, lines: seq<string>, heads: seq<Head>, i: nat) returns (h: nat)
    requires GoodHeads(f, lines, heads, |lines|) && i < |lines| && VersionAt(f, lines, i).Some?
    ensures h < |heads| && heads[h].at <= i && (h + 1 < |heads| ==> i < heads[h + 1].at)
    decreases i
  {
    if f(lines[i]).Header? {
      h :| 0 <= h < |heads| && heads[h].at == i;
    } else {
      h := HeadAbove(f, lines, heads, i - 1);
      assert h + 1 < |heads| ==> f(lines[heads[h + 1].at]).Header?;
    }
  }

  // ------------------------------------------------------------------ ordering the blocks

  predicate BlockBefore(a: Block, b: Block) {
    var u, v := Parse(a.version), Parse(b.version);
    Less(u, v) || (u == v && a.start < b.start)
  }

  /** Insert before the first block of an equal or higher version: the order of equals is kept. */
  function Insert(b: Block, s: seq<Block>): seq<Block> {
    if s != [] && Less(Parse(s[0].version), Parse(b.version)) then [s[0]] + Insert(b, s[1..]) else [b] + s
  }

  /** `sorted` by version: a stable sort. */
  function SortBlocks(s: seq<Block>): seq<Block> {
    if s == [] then [] else Insert(s[0], SortBlocks(s[1..]))
  }

  ghost predicate Ordered(s: seq<Block>) {
    forall m, n {:trigger BlockBefore(s[m], s[n])} :: 0 <= m < n < |s| ==> BlockBefore(s[m], s[n])
  }

  lemma {:induction false} InsertLaws(b: Block, s: seq<Block>)
    requires Ordered(s) && forall c :: c in s ==> b.start < c.start
    ensures Ordered(Insert(b, s))
    ensures forall c :: c in Insert(b, s) <==> c == b || c in s
    decreases |s|
  {
    if s == [] {
    } else if Less(Parse(s[0].version), Parse(b.version)) {
      assert s == [s[0]] + s[1..];
      InsertLaws(b, s[1..]);
      OrderedCons(s[0], Insert(b, s[1..]));
    } else {
      forall c | c in s ensures BlockBefore(b, c) {
        LessIsTotal(Parse(b.version), Parse(s[0].version), Parse(c.version));
        var n :| 0 <= n < |s| && s[n] == c;
        assert n > 0 ==> BlockBefore(s[0], s[n]);
      }
      OrderedCons(b, s);
    }
  }

  lemma OrderedCons(b: Block, s: seq<Block>)
    requires Ordered(s) && forall c :: c in s ==> BlockBefore(b, c)
    ensures Ordered([b] + s)
  {
    var t := [b] + s;
    forall m, n | 0 <= m < n < |t| ensures BlockBefore(t[m], t[n]) {
      assert t[n] == s[n - 1];
      assert m > 0 ==> t[m] == s[m - 1] && BlockBefore(s[m - 1], s[n - 1]);
    }
  }

  lemma {:induction false} SortLaws(s: seq<Block>)
    requires forall m, n :: 0 <= m < n < |s| ==> s[m].start < s[n].start
    ensures Ordered(SortBlocks(s))
    ensures forall c :: c in SortBlocks(s) <==> c in s
    decreases |s|
  {
    if s == [] {
    } else {
      SortLaws(s[1..]);
      assert s == [s[0]] + s[1..];
      forall c | c in s[1..] ensures s[0].start < c.start {
        var n :| 0 <= n < |s[1..]| && s[1..][n] == c;
        assert s[n + 1] == c;
      }
      InsertLaws(s[0], SortBlocks(s[1..]));
    }
  }

  // ------------------------------------------------------------------ marking

  /** All the facts that marking relies on. */
  ghost predicate Arranged(f: Classifier, lines: seq<string>, blocks: seq<Block>, ordered: seq<Block>) {
    && GoodBlocks(f, lines, blocks) && Ordered(ordered) && forall b :: b in ordered <==> b in blocks
  }

  lemma {:induction false} SortArranges(f: Classifier, lines: seq<string>, blocks: seq<Block>)
    requires GoodBlocks(f, lines, blocks)
    ensures Arranged(f, lines, blocks, SortBlocks(blocks))
  {
    forall m, n | 0 <= m < n < |blocks| ensures blocks[m].start < blocks[n].start {
      assert GoodBlock(f, lines, blocks[m]);
    }
    SortLaws(blocks);
  }

  /** Line `j` lies in one of the first `n` blocks. */
  ghost predicate Within(ordered: seq<Block>, n: nat, j: nat) {
    exists m :: 0 <= m < n && m < |ordered| && ordered[m].start < j < ordered[m].end
  }

  /** Line `j` was visited before line `i` of block `n`. */
  ghost predicate Visited(ordered: seq<Block>, n: nat, i: nat, j: nat) {
    Within(ordered, n, j) || (n < |ordered| && ordered[n].start < j < i)
  }

  lemma OrderedGood(f: Classifier, lines: seq<string>, blocks: seq<Block>, ordered: seq<Block>, n: nat)
    requires Arranged(f, lines, blocks, ordered) && n < |ordered|
    ensures GoodBlock(f, lines, ordered[n])
  {
    assert ordered[n] in blocks;
  }

  /** Two blocks of the file: the one that starts first ends before the other starts. */
  lemma Apart(f: Classifier, lines: seq<string>, blocks: seq<Block>, b: Block, c: Block)
    requires GoodBlocks(f, lines, blocks) && b in blocks && c in blocks && b.start < c.start
    ensures b.end <= c.start
  {
    var m :| 0 <= m < |blocks| && blocks[m] == b;
    var n :| 0 <= n < |blocks| && blocks[n] == c;
    if n < m {
      assert blocks[n].end <= blocks[m].start;
      assert GoodBlock(f, lines, blocks[n]);
    }
  }

  lemma BlockOfLine(f: Classifier, lines: seq<string>, blocks: seq<Block>, ordered: seq<Block>, j: nat) returns (m: nat)
    requires Arranged(f, lines, blocks, ordered)
    requires j < |lines| && VersionAt(f, lines, j).Some? && !f(lines[j]).Header?
    ensures m < |ordered| && ordered[m].start < j < ordered[m].end
  {
    var n :| 0 <= n < |blocks| && blocks[n].start <= j < blocks[n].end;
    var b := blocks[n];
    assert GoodBlock(f, lines, b);
    assert b in blocks;
    m :| 0 <= m < |ordered| && ordered[m] == b;
  }

  /** The lines visited before a line of the current block are exactly the earlier ones. */
  lemma {:induction false} VisitedIsEarlier(f: Classifier, lines: seq<string>, blocks: seq<Block>, ordered: seq<Block>,
                         n: nat, i: nat, j: nat)
    requires Arranged(f, lines, blocks, ordered) && n < |ordered| && ordered[n].start < i < ordered[n].end
    requires i < |lines| && j < |lines| && VersionAt(f, lines, j).Some? && !f(lines[j]).Header?
    requires VersionAt(f, lines, i).Some?
    ensures Visited(ordered, n, i, j) <==> Earlier(f, lines, j, i)
  {
    var m := BlockOfLine(f, lines, blocks, ordered, j);
    var b, c := ordered[n], ordered[m];
    OrderedGood(f, lines, blocks, ordered, n);
    OrderedGood(f, lines, blocks, ordered, m);
    InBlock(f, lines, b, i);
    InBlock(f, lines, c, j);
    LessIsTotal(Parse(b.version), Parse(c.version), Parse(b.version));
    if m < n {
      assert BlockBefore(c, b);
      if c.start < b.start { Apart(f, lines, blocks, c, b); }
    } else if n < m {
      assert BlockBefore(b, c);
      if b.start < c.start { Apart(f, lines, blocks, b, c); }
      NotWithin(f, lines, blocks, ordered, n, m, j);
    } else {
      NotWithin(f, lines, blocks, ordered, n, m, j);
    }
  }

  /** A line lies in one block only. */
  lemma NotWithin(f: Classifier, lines: seq<string>, blocks: seq<Block>, ordered: seq<Block>, n: nat, m: nat, j: nat)
    requires Arranged(f, lines, blocks, ordered) && n <= m < |ordered| && ordered[m].start < j < ordered[m].end
    ensures !Within(ordered, n, j)
    ensures n < m ==> !(ordered[n].start < j < ordered[n].end)
  {
    forall k | 0 <= k < m ensures !(ordered[k].start < j < ordered[k].end) {
      assert BlockBefore(ordered[k], ordered[m]);
      assert ordered[k] in blocks && ordered[m] in blocks;
      if ordered[k].start < ordered[m].start {
        Apart(f, lines, blocks, ordered[k], ordered[m]);
      } else if ordered[m].start < ordered[k].start {
        Apart(f, lines, blocks, ordered[m], ordered[k]);
      }
    }
  }

  ghost predicate Mentions(f: Classifier, lines: seq<string>, j: nat, k: string) {
    j < |lines| && f(lines[j]) == Bullet(k)
  }

  /** A bullet with text `k` was visited before line `i` of block `n`. */
  ghost predicate Known(f: Classifier, lines: seq<string>, ordered: seq<Block>, n: nat, i: nat, k: string) {
    exists j: nat :: Mentions(f, lines, j, k) && Visited(ordered, n, i, j)
  }

  lemma DuplicateIffKnown(f: Classifier, lines: seq<string>, blocks: seq<Block>, ordered: seq<Block>, n: nat, i: nat)
    requires Arranged(f, lines, blocks, ordered) && n < |ordered| && ordered[n].start < i < ordered[n].end
    requires i < |lines|
    ensures Duplicate(f, lines, i) <==>
            f(lines[i]).Bullet? && f(lines[i]).text != "" && Known(f, lines, ordered, n, i, f(lines[i]).text)
  {
    OrderedGood(f, lines, blocks, ordered, n);
    InBlock(f, lines, ordered[n], i);
    if f(lines[i]).Bullet? {
      var k := f(lines[i]).text;
      assert Entry(f, lines, i, k);
      forall j: nat | Mentions(f, lines, j, k)
        ensures Visited(ordered, n, i, j) <==> Entry(f, lines, j, k) && Earlier(f, lines, j, i)
      {
        if Visited(ordered, n, i, j) {
          VisitedHasVersion(f, lines, blocks, ordered, n, i, j);
        }
        if VersionAt(f, lines, j).Some? {
          VisitedIsEarlier(f, lines, blocks, ordered, n, i, j);
        }
      }
    }
  }

  lemma {:induction false} VisitedHasVersion(f: Classifier, lines: seq<string>, blocks: seq<Block>, ordered: seq<Block>,
                          n: nat, i: nat, j: nat)
    requires Arranged(f, lines, blocks, ordered) && n < |ordered| && i <= ordered[n].end
    requires j < |lines| && Visited(ordered, n, i, j)
    ensures VersionAt(f, lines, j).Some?
  {
    var m := n;
    if !(ordered[n].start < j < i) {
      m :| 0 <= m < n && ordered[m].start < j < ordered[m].end;
    }
    OrderedGood(f, lines, blocks, ordered, m);
    InBlock(f, lines, ordered[m], j);
  }

  /** Exactly the visited duplicates are marked. */
  ghost predicate Marked(f: Classifier, lines: seq<string>, ordered: seq<Block>, n: nat, i: nat, toDrop: set<nat>) {
    forall d: nat :: d in toDrop <==> Visited(ordered, n, i, d) && Duplicate(f, lines, d)
  }

  /** Exactly the texts of the visited bullets have been seen. */
  ghost predicate SeenAll(f: Classifier, lines: seq<string>, ordered: seq<Block>, n: nat, i: nat, seen: set<string>) {
    forall k :: k in seen <==> Known(f, lines, ordered, n, i, k)
  }

  /** The marking loop: blocks from the lowest version up. */
  method MarkDuplicates(f: Classifier, lines: seq<string>, blocks: seq<Block>) returns (toDrop: set<nat>)
    requires GoodBlocks(f, lines, blocks)
    ensures forall i: nat :: i in toDrop <==> Duplicate(f, lines, i)
  {
    var ordered := SortBlocks(blocks);
    SortArranges(f, lines, blocks);
    var seen: set<string> := {};
    toDrop := {};
    for n := 0 to |ordered|
      invariant SeenAll(f, lines, ordered, n, 0, seen)
      invariant Marked(f, lines, ordered, n, 0, toDrop)
    {
      var localSeen;
      localSeen, toDrop := MarkBlock(f, lines, blocks, ordered, n, seen, toDrop);
      seen := seen + localSeen;
    }
    AllVisited(f, lines, blocks, ordered);
  }

  /** The inner loop, over one block from the top down. */
  method MarkBlock(f: Classifier, lines: seq<string>, ghost blocks: seq<Block>, ordered: seq<Block>, n: nat,
                   seen: set<string>, before: set<nat>)
    returns (localSeen: set<string>, toDrop: set<nat>)
    requires Arranged(f, lines, blocks, ordered) && n < |ordered|
    requires SeenAll(f, lines, ordered, n, 0, seen) && Marked(f, lines, ordered, n, 0, before)
    ensures SeenAll(f, lines, ordered, n + 1, 0, seen + localSeen)
    ensures Marked(f, lines, ordered, n + 1, 0, toDrop)
  {
    OrderedGood(f, lines, blocks, ordered, n);
    EnterBlock(ordered, n);
    localSeen, toDrop := {}, before;
    var i := ordered[n].start + 1;
    while i < ordered[n].end
      invariant ordered[n].start < i <= ordered[n].end
      invariant SeenAll(f, lines, ordered, n, i, seen + localSeen)
      invariant Marked(f, lines, ordered, n, i, toDrop)
    {
      MarkNext(f, lines, blocks, ordered, n, i, seen + localSeen, toDrop);
      if f(lines[i]).Bullet? {
        var key := f(lines[i]).text;
        if key != "" && (key in seen || key in localSeen) {
          toDrop := toDrop + {i};
        } else {
          assert seen + (localSeen + {key}) == seen + localSeen + {key};
          localSeen := localSeen + {key};
        }
      }
      i := i + 1;
    }
    LeaveBlock(ordered, n);
  }

  /** What one turn of the loop has to do, given all the texts seen before. */
  lemma {:induction false} MarkNext(f: Classifier, lines: seq<string>, blocks: seq<Block>, ordered: seq<Block>,
                                    n: nat, i: nat, known: set<string>, toDrop: set<nat>)
    requires Arranged(f, lines, blocks, ordered) && n < |ordered|
    requires ordered[n].start < i < ordered[n].end <= |lines|
    requires SeenAll(f, lines, ordered, n, i, known) && Marked(f, lines, ordered, n, i, toDrop)
    ensures var line := f(lines[i]);
      if line.Bullet? && line.text != "" && line.text in known
      then SeenAll(f, lines, ordered, n, i + 1, known) && Marked(f, lines, ordered, n, i + 1, toDrop + {i})
      else Marked(f, lines, ordered, n, i + 1, toDrop)
           && SeenAll(f, lines, ordered, n, i + 1, if line.Bullet? then known + {line.text} else known)
  {
    DuplicateIffKnown(f, lines, blocks, ordered, n, i);
    KnownNext(f, lines, ordered, n, i);
    MarkedNext(f, lines, ordered, n, i, toDrop);
  }

  lemma EnterBlock(ordered: seq<Block>, n: nat)
    requires n < |ordered|
    ensures forall j: nat :: Visited(ordered, n, ordered[n].start + 1, j) <==> Visited(ordered, n, 0, j)
  {}

  lemma LeaveBlock(ordered: seq<Block>, n: nat)
    requires n < |ordered|
    ensures forall j: nat :: Visited(ordered, n, ordered[n].end, j) <==> Visited(ordered, n + 1, 0, j)
  {}

  /** One more line visited: one more known text, if the line is a bullet. */
  lemma KnownNext(f: Classifier, lines: seq<string>, ordered: seq<Block>, n: nat, i: nat)
    requires n < |ordered| && ordered[n].start < i < |lines|
    ensures forall k :: Known(f, lines, ordered, n, i + 1, k) <==>
                        Known(f, lines, ordered, n, i, k) || f(lines[i]) == Bullet(k)
  {
    forall k ensures Known(f, lines, ordered, n, i + 1, k) <==>
                     Known(f, lines, ordered, n, i, k) || f(lines[i]) == Bullet(k)
    {
      assert Visited(ordered, n, i + 1, i);
      if f(lines[i]) == Bullet(k) {
        assert Mentions(f, lines, i, k);
      }
      if Known(f, lines, ordered, n, i, k) {
        var j: nat :| Mentions(f, lines, j, k) && Visited(ordered, n, i, j);
        assert Visited(ordered, n, i + 1, j);
      }
    }
  }

  lemma MarkedNext(f: Classifier, lines: seq<string>, ordered: seq<Block>, n: nat, i: nat, toDrop: set<nat>)
    requires n < |ordered| && ordered[n].start < i < |lines|
    requires Marked(f, lines, ordered, n, i, toDrop)
    ensures Marked(f, lines, ordered, n, i + 1, if Duplicate(f, lines, i) then toDrop + {i} else toDrop)
  {
    forall d: nat ensures Visited(ordered, n, i + 1, d) <==> Visited(ordered, n, i, d) || d == i {}
  }

  lemma AllVisited(f: Classifier, lines: seq<string>, blocks: seq<Block>, ordered: seq<Block>)
    requires Arranged(f, lines, blocks, ordered)
    ensures forall i: nat :: Duplicate(f, lines, i) ==> Visited(ordered, |ordered|, 0, i)
  {
    forall i: nat | Duplicate(f, lines, i) ensures Visited(ordered, |ordered|, 0, i) {
      var m := BlockOfLine(f, lines, blocks, ordered, i);
    }
  }

  // ------------------------------------------------------------------ the output

  /** The line numbers among the first `n` that are not dropped, in file order. */
  ghost function Survivors(drop: set<nat>, n: nat): (s: seq<nat>)
    ensures forall p :: 0 <= p < |s| ==> s[p] < n
  {
    if n == 0 then []
    else if n - 1 in drop then Survivors(drop, n - 1)
    else Survivors(drop, n - 1) + [n - 1]
  }

  /** They are exactly the numbers that are not dropped, each once and in order. */
  lemma {:induction false} SurvivorsAre(drop: set<nat>, n: nat)
    ensures forall i: nat :: i in Survivors(drop, n) <==> i < n && i !in drop
    ensures forall p, q :: 0 <= p < q < |Survivors(drop, n)| ==> Survivors(drop, n)[p] < Survivors(drop, n)[q]
  {
    if n == 0 {
    } else {
      SurvivorsAre(drop, n - 1);
    }
  }

  /** The lines among the first `n` that are not dropped. */
  ghost function Output(lines: seq<string>, drop: set<nat>, n: nat): seq<string>
    requires n <= |lines|
  {
    if n == 0 then []
    else if n - 1 in drop then Output(lines, drop, n - 1)
    else Output(lines, drop, n - 1) + [lines[n - 1]]
  }

  lemma {:induction false} OutputLength(lines: seq<string>, drop: set<nat>, n: nat)
    requires n <= |lines|
    ensures |Output(lines, drop, n)| == |Survivors(drop, n)|
  {
    if n == 0 {
    } else {
      OutputLength(lines, drop, n - 1);
    }
  }

  lemma {:induction false} OutputAt(lines: seq<string>, drop: set<nat>, n: nat)
    requires n <= |lines|
    ensures |Output(lines, drop, n)| == |Survivors(drop, n)|
    ensures forall p :: 0 <= p < |Survivors(drop, n)| ==> Output(lines, drop, n)[p] == lines[Survivors(drop, n)[p]]
  {
    if n == 0 {
    } else {
      OutputAt(lines, drop, n - 1);
    }
  }

  ghost function Duplicates(f: Classifier, lines: seq<string>): set<nat> {
    set i: nat | i < |lines| && Duplicate(f, lines, i)
  }

  ghost function Deduped(f: Classifier, lines: seq<string>): seq<string> {
    Output(lines, Duplicates(f, lines), |lines|)
  }

  method Dedupe(f: Classifier, lines: seq<string>) returns (out: seq<string>)
    ensures out == Deduped(f, lines)
  {
    var blocks := FindVersionBlocks(f, lines);
    var toDrop := MarkDuplicates(f, lines, blocks);
    assert toDrop == Duplicates(f, lines);
    out := [];
    for i := 0 to |lines|
      invariant out == Output(lines, toDrop, i)
    {
      if i !in toDrop {
        out := out + [lines[i]];
      }
    }
  }

  /** The version in force after the first `n` lines. */
  ghost function VersionAfter(f: Classifier, lines: seq<string>, n: nat): Option<string>
    requires n <= |lines|
  {
    if n == 0 then None else VersionAt(f, lines, n - 1)
  }

  lemma {:induction false} VersionOfPrefix(f: Classifier, a: seq<string>, b: seq<string>, p: nat)
    requires p < |a| <= |b| && a == b[..|a|]
    ensures VersionAt(f, a, p) == VersionAt(f, b, p)
    decreases p
  {
    assert a[p] == b[p];
    if p == 0 {
    } else {
      VersionOfPrefix(f, a, b, p - 1);
    }
  }

  lemma VersionExtends(f: Classifier, a: seq<string>, line: string)
    ensures VersionAfter(f, a + [line], |a| + 1)
         == if f(line).Header? then Some(f(line).version) else VersionAfter(f, a, |a|)
  {
    if a != [] {
      VersionOfPrefix(f, a, a + [line], |a| - 1);
    }
  }

  ghost predicate SparesHeaders(f: Classifier, lines: seq<string>, drop: set<nat>) {
    forall i: nat :: i < |lines| && i in drop ==> !f(lines[i]).Header?
  }

  /** No header is dropped, so the version in force never changes. */
  lemma {:induction false} OutputKeepsVersion(f: Classifier, lines: seq<string>, drop: set<nat>, n: nat)
    requires n <= |lines| && SparesHeaders(f, lines, drop)
    ensures VersionAfter(f, Output(lines, drop, n), |Output(lines, drop, n)|) == VersionAfter(f, lines, n)
    decreases n
  {
    if n == 0 {
    } else {
      OutputKeepsVersion(f, lines, drop, n - 1);
      if n - 1 !in drop {
        VersionExtends(f, Output(lines, drop, n - 1), lines[n - 1]);
      }
    }
  }

  /** Every surviving line stays under the version it was under. */
  lemma {:induction false} SurvivorKeepsVersion(f: Classifier, lines: seq<string>, drop: set<nat>, n: nat, p: nat)
    requires n <= |lines| && SparesHeaders(f, lines, drop) && p < |Survivors(drop, n)|
    ensures |Output(lines, drop, n)| == |Survivors(drop, n)|
    ensures VersionAt(f, Output(lines, drop, n), p) == VersionAt(f, lines, Survivors(drop, n)[p])
    decreases n
  {
    OutputLength(lines, drop, n - 1);
    if n - 1 in drop {
      SurvivorKeepsVersion(f, lines, drop, n - 1, p);
    } else if p < |Survivors(drop, n - 1)| {
      SurvivorKeepsVersion(f, lines, drop, n - 1, p);
      VersionOfPrefix(f, Output(lines, drop, n - 1), Output(lines, drop, n), p);
    } else {
      OutputKeepsVersion(f, lines, drop, n);
    }
  }

  /** An entry of the output is an entry of the input, and conversely. */
  lemma {:induction false} SameEntry(f: Classifier, lines: seq<string>, drop: set<nat>, p: nat, k: string)
    requires SparesHeaders(f, lines, drop) && p < |Survivors(drop, |lines|)|
    ensures Entry(f, Output(lines, drop, |lines|), p, k) <==> Entry(f, lines, Survivors(drop, |lines|)[p], k)
  {
    OutputAt(lines, drop, |lines|);
    SurvivorKeepsVersion(f, lines, drop, |lines|, p);
  }

  lemma {:induction false} Increasing(drop: set<nat>, n: nat, p: nat, q: nat)
    requires p < |Survivors(drop, n)| && q < |Survivors(drop, n)|
    ensures q < p <==> Survivors(drop, n)[q] < Survivors(drop, n)[p]
    ensures Survivors(drop, n)[p] !in drop
  {
    SurvivorsAre(drop, n);
  }

  /** The order of entries is the same in the output as in the input. */
  lemma {:induction false} SameOrder(f: Classifier, lines: seq<string>, drop: set<nat>, p: nat, q: nat, k: string)
    requires SparesHeaders(f, lines, drop)
    requires p < |Survivors(drop, |lines|)| && q < |Survivors(drop, |lines|)|
    requires var out := Output(lines, drop, |lines|);
             Entry(f, out, p, k) && Entry(f, out, q, k) && Earlier(f, out, q, p)
    ensures var i, j := Survivors(drop, |lines|)[p], Survivors(drop, |lines|)[q];
            Entry(f, lines, i, k) && Entry(f, lines, j, k) && Earlier(f, lines, j, i)
  {
    SameEntry(f, lines, drop, p, k);
    SameEntry(f, lines, drop, q, k);
    SurvivorKeepsVersion(f, lines, drop, |lines|, p);
    SurvivorKeepsVersion(f, lines, drop, |lines|, q);
    Increasing(drop, |lines|, p, q);
  }

  /** The first of the lowest versions among the first `n`. */
  ghost predicate Lowest(vs: seq<Option<Version>>, n: nat, e: nat) {
    && e < n <= |vs| && vs[e].Some?
    && forall j :: 0 <= j < n && j != e && vs[j].Some? ==>
         Less(vs[e].value, vs[j].value) || (vs[e] == vs[j] && e < j)
  }

  lemma {:induction false} LowestOf(vs: seq<Option<Version>>, n: nat, i: nat) returns (e: nat)
    requires i < n <= |vs| && vs[i].Some?
    ensures Lowest(vs, n, e)
    decreases n
  {
    var last := n - 1;
    if j: nat :| j < last && vs[j].Some? {
      e := LowestOf(vs, last, j);
      if vs[last].Some? {
        e := LowerOf(vs, last, e);
      }
    } else {
      e := last;
    }
  }

  lemma {:induction false} LowerOf(vs: seq<Option<Version>>, n: nat, was: nat) returns (e: nat)
    requires n < |vs| && Lowest(vs, n, was) && vs[n].Some?
    ensures Lowest(vs, n + 1, e)
  {
    var u, v := vs[n].value, vs[was].value;
    LessIsTotal(u, v, u);
    e := if Less(u, v) then n else was;
    forall j | 0 <= j <= n && j != e && vs[j].Some?
      ensures Less(vs[e].value, vs[j].value) || (vs[e] == vs[j] && e < j)
    {
      LessIsTotal(u, v, vs[j].value);
    }
  }

  /** The versions of the entries with one text. */
  ghost function VersionsOf(f: Classifier, lines: seq<string>, k: string): (vs: seq<Option<Version>>)
    ensures |vs| == |lines|
    ensures forall i :: 0 <= i < |lines| ==>
      vs[i] == if Entry(f, lines, i, k) then Some(Parse(VersionAt(f, lines, i).value)) else None
  {
    seq(|lines|, i requires 0 <= i < |lines| =>
      if Entry(f, lines, i, k) then Some(Parse(VersionAt(f, lines, i).value)) else None)
  }

  /** The earliest of the entries with one text. */
  lemma {:induction false} EarliestEntry(f: Classifier, lines: seq<string>, k: string) returns (e: nat)
    requires exists i: nat :: Entry(f, lines, i, k)
    ensures Entry(f, lines, e, k)
    ensures forall j: nat :: Entry(f, lines, j, k) && j != e ==> Earlier(f, lines, e, j)
  {
    var i: nat :| Entry(f, lines, i, k);
    var vs := VersionsOf(f, lines, k);
    e := LowestOf(vs, |lines|, i);
    forall j: nat | Entry(f, lines, j, k) && j != e ensures Earlier(f, lines, e, j) {
      assert vs[j].Some? && vs[e].Some?;
    }
  }

  lemma EarliestIsNoDuplicate(f: Classifier, lines: seq<string>, k: string, e: nat)
    requires k != "" && Entry(f, lines, e, k)
    requires forall j: nat :: Entry(f, lines, j, k) && j != e ==> Earlier(f, lines, e, j)
    ensures !Duplicate(f, lines, e)
    ensures forall j: nat :: Entry(f, lines, j, k) && j != e ==> Duplicate(f, lines, j)
  {
    forall j: nat | Entry(f, lines, j, k) ensures !Earlier(f, lines, j, e) {
      LessIsTotal(Parse(VersionAt(f, lines, e).value), Parse(VersionAt(f, lines, j).value),
                  Parse(VersionAt(f, lines, e).value));
    }
  }

  /**
   * Each non-empty entry text is mentioned by exactly one line of the output: the earliest
   * mention, that is the first one in the lowest version that has it.
   */
  lemma SurvivesExactlyOnce(f: Classifier, lines: seq<string>, k: string) returns (e: nat, p: nat)
    requires k != "" && exists i: nat :: Entry(f, lines, i, k)
    ensures Entry(f, lines, e, k)
    ensures forall j: nat :: Entry(f, lines, j, k) && j != e ==> Earlier(f, lines, e, j)
    ensures p < |Survivors(Duplicates(f, lines), |lines|)| && Survivors(Duplicates(f, lines), |lines|)[p] == e
    ensures forall q: nat :: Entry(f, Deduped(f, lines), q, k) <==> q == p
  {
    e := EarliestEntry(f, lines, k);
    EarliestIsNoDuplicate(f, lines, k, e);
    var drop := Duplicates(f, lines);
    OutputLength(lines, drop, |lines|);
    p := Position(drop, |lines|, e);
    forall q: nat ensures Entry(f, Deduped(f, lines), q, k) <==> q == p {
      if q < |Survivors(drop, |lines|)| {
        SameEntry(f, lines, drop, q, k);
        Increasing(drop, |lines|, p, q);
        Increasing(drop, |lines|, q, p);
      }
    }
  }

  lemma Position(drop: set<nat>, n: nat, e: nat) returns (p: nat)
    requires e < n && e !in drop
    ensures p < |Survivors(drop, n)| && Survivors(drop, n)[p] == e
  {
    SurvivorsAre(drop, n);
    p :| p < |Survivors(drop, n)| && Survivors(drop, n)[p] == e;
  }

  /**
   * Everything but a repeated non-empty entry survives: the output is the input restricted,
   * in order, to the headers, the lines that are no bullets, the bullets above the first
   * header, the empty bullets and the earliest mentions.
   */
  lemma {:induction false} OnlyDuplicatesAreDropped(f: Classifier, lines: seq<string>, i: nat)
    requires i < |lines|
    ensures i !in Survivors(Duplicates(f, lines), |lines|) <==>
            exists k, j: nat :: k != "" && Entry(f, lines, i, k) && Entry(f, lines, j, k) && Earlier(f, lines, j, i)
  {
    SurvivorsAre(Duplicates(f, lines), |lines|);
  }

  lemma NoDuplicateLeft(f: Classifier, lines: seq<string>, p: nat)
    ensures !Duplicate(f, Deduped(f, lines), p)
  {
    var out, drop := Deduped(f, lines), Duplicates(f, lines);
    if Duplicate(f, out, p) {
      var q: nat, k :| k != "" && Entry(f, out, p, k) && Entry(f, out, q, k) && Earlier(f, out, q, p);
      OutputLength(lines, drop, |lines|);
      SameOrder(f, lines, drop, p, q, k);
      Increasing(drop, |lines|, p, q);
      assert false;
    }
  }

  /** A second pass drops nothing. */
  lemma DedupeIsIdempotent(f: Classifier, lines: seq<string>)
    ensures Deduped(f, Deduped(f, lines)) == Deduped(f, lines)
  {
    var out := Deduped(f, lines);
    forall p: nat ensures !Duplicate(f, out, p) {
      NoDuplicateLeft(f, lines, p);
    }
    assert Duplicates(f, out) == {};
    NothingToDrop(out, |out|);
  }

  lemma {:induction false} NothingToDrop(lines: seq<string>, n: nat)
    requires n <= |lines|
    ensures Output(lines, {}, n) == lines[..n]
    decreases n
  {
    if n == 0 {
    } else {
      NothingToDrop(lines, n - 1);
    }
  }
}
