/**
 * Key encoding and namespace clearing of the plugins' Redis-backed store
 * (`plugins/lib/kv.ts`).
 */
module KvKeys {
  import opened Options

  const PREFIX: string := "plugin_kv:{"

  datatype Segment = Data | Lock

  function StripBraces(s: string): (r: string)
    ensures '{' !in r && '}' !in r
    ensures '{' !in s && '}' !in s ==> r == s
  {
    if s == [] then []
    else if s[0] == '{' || s[0] == '}' then StripBraces(s[1..])
    else [s[0]] + StripBraces(s[1..])
  }

  function Namespace(pluginId: string): string {
    PREFIX + StripBraces(pluginId) + "}"
  }

  predicate KeyChar(c: char) {
    'A' <= c <= 'Z' || 'a' <= c <= 'z' || '0' <= c <= '9' || c == ':' || c == '_' || c == '-'
  }

  predicate ValidKey(key: string) {
    1 <= |key| <= 512 && forall c <- key :: KeyChar(c)
  }

  function SegmentText(seg: Segment): (t: string)
    ensures |t| == 6
  {
    if seg.Data? then ":data:" else ":lock:"
  }

  /** The full Redis key, or `None` where the source throws `invalid key`. */
  function Key(pluginId: string, seg: Segment, key: string): Option<string> {
    if ValidKey(key) then Some(Namespace(pluginId) + SegmentText(seg) + key) else None
  }

  /** Text before the first closing brace determines both sides of it. */
  lemma {:induction false} SplitAtBrace(a: string, b: string, x: string, y: string)
    requires '}' !in a && '}' !in b
    requires a + "}" + x == b + "}" + y
    ensures a == b && x == y
    decreases |a|
  {
    var left := a + "}" + x;
    var right := b + "}" + y;
    assert left[0] == (if a == [] then '}' else a[0]);
    assert right[0] == (if b == [] then '}' else b[0]);
    assert a == [] <==> b == [];
    if a == [] {
      assert left[1..] == x && right[1..] == y;
    } else {
      assert left[1..] == a[1..] + "}" + x && right[1..] == b[1..] + "}" + y;
      SplitAtBrace(a[1..], b[1..], x, y);
    }
  }

  /**
   * Two valid keys coincide exactly when plugin ids (up to braces), segments and user keys
   * coincide: data and lock keys never alias, within or across plugins.
   */
  lemma {:induction false} KeyInjective(p: string, seg: Segment, k: string, p': string, seg': Segment, k': string)
    requires ValidKey(k) && ValidKey(k')
    ensures Key(p, seg, k) == Key(p', seg', k')
      <==> StripBraces(p) == StripBraces(p') && seg == seg' && k == k'
  {
    var x, y := SegmentText(seg) + k, SegmentText(seg') + k';
    assert Key(p, seg, k).value == Namespace(p) + x && Key(p', seg', k').value == Namespace(p') + y;
    SplitKey(PREFIX, StripBraces(p), StripBraces(p'), x, y);
    assert x[1] == (if seg.Data? then 'd' else 'l') && y[1] == (if seg'.Data? then 'd' else 'l');
    assert x[6..] == k && y[6..] == k';
  }

  lemma SplitKey(pre: string, a: string, b: string, x: string, y: string)
    requires '}' !in a && '}' !in b
    ensures pre + a + "}" + x == pre + b + "}" + y <==> a == b && x == y
  {
    var left, right := pre + a + "}" + x, pre + b + "}" + y;
    if left == right {
      assert left[|pre|..] == a + "}" + x && right[|pre|..] == b + "}" + y;
      SplitAtBrace(a, b, x, y);
    }
  }

  // ------------------------------------------------------------------ scan patterns

  /** Redis's glob matching, as `matches(pattern, key)`; only literal patterns are constrained. */
  type Glob = (string, string) -> bool

  predicate Literal(s: string) {
    forall c <- s :: c != '*' && c != '?' && c != '[' && c != ']' && c != '\\' && c != '^'
  }

  ghost predicate MatchesLiterally(glob: Glob) {
    forall lit, key | Literal(lit) :: glob(lit + "*", key) <==> lit <= key
  }

  function ClearPattern(pluginId: string): string {
    Namespace(pluginId) + ":*"
  }

  /** For ids without glob characters the pattern of `clear` covers exactly its own keys. */
  lemma {:induction false} ClearCoversOwnKeys(glob: Glob, p: string, q: string, seg: Segment, k: string)
    requires MatchesLiterally(glob) && Literal(p) && ValidKey(k)
    ensures glob(ClearPattern(p), Key(q, seg, k).value) <==> StripBraces(p) == StripBraces(q)
  {
    StripKeepsLiteral(p);
    LiteralNamespace(p);
    assert ClearPattern(p) == (Namespace(p) + ":") + "*";
    var tail := SegmentText(seg) + k;
    assert Key(q, seg, k).value == Namespace(q) + tail;
    SamePrefix(PREFIX, StripBraces(p), StripBraces(q), tail);
  }

  lemma SamePrefix(pre: string, a: string, b: string, tail: string)
    requires '}' !in a && '}' !in b && |tail| > 0 && tail[0] == ':'
    ensures pre + a + "}" + ":" <= pre + b + "}" + tail <==> a == b
  {
    var lit, key := pre + a + "}" + ":", pre + b + "}" + tail;
    assert key == pre + (b + "}" + tail);
    if a == b {
      assert key == lit + tail[1..];
    }
    if lit <= key {
      var rest := ":" + key[|lit|..];
      assert key == pre + (a + "}" + rest);
      assert key[|pre|..] == a + "}" + rest && key[|pre|..] == b + "}" + tail;
      SplitAtBrace(a, b, rest, tail);
    }
  }

  lemma {:induction false} LiteralNamespace(p: string)
    requires Literal(StripBraces(p))
    ensures Literal(Namespace(p) + ":")
  {
    assert Literal(PREFIX);
    forall c | c in Namespace(p) + ":" ensures c in PREFIX || c in StripBraces(p) || c == '}' || c == ':' {}
  }

  lemma {:induction false} StripKeepsLiteral(s: string)
    requires Literal(s)
    ensures Literal(StripBraces(s))
    decreases |s|
  {
    if s == [] {
    } else {
      assert s[0] in s && forall c :: c in s[1..] ==> c in s;
      StripKeepsLiteral(s[1..]);
    }
  }
}

/** `clear`: scan the namespace and unlink what the scan returns, in pipelined chunks. */
module KvClear {
  import opened KvKeys

  const CHUNK: nat := 512

  function Elements(keys: seq<string>): set<string> {
    set k | k in keys
  }

  /** All keys that a scan's batches return. */
  function Returned(scan: seq<seq<string>>): set<string> {
    if scan == [] then {} else Returned(scan[..|scan| - 1]) + Elements(scan[|scan| - 1])
  }

  lemma MinusTwice(m: map<string, string>, a: set<string>, b: set<string>)
    ensures (m - a) - b == m - (a + b)
  {}

  lemma MinusNone(m: map<string, string>)
    ensures m - {} == m
  {}

  lemma ElementsSplit(keys: seq<string>, i: nat, to: nat)
    requires i <= to <= |keys|
    ensures Elements(keys[..to]) == Elements(keys[..i]) + Elements(keys[i..to])
  {
    assert keys[..to] == keys[..i] + keys[i..to];
  }

  class KvStore {
    var db: map<string, string>

    /** `UNLINK key`: how many keys were removed. */
    method Unlink(key: string) returns (n: nat)
      modifies this
      ensures db == old(db) - {key}
      ensures n == |old(db)| - |db|
    {
      if key in db {
        n := 1;
        assert (db - {key}).Keys == db.Keys - {key};
        db := db - {key};
      } else {
        n := 0;
        assert db - {key} == db;
      }
    }

    /** One pipeline of UNLINK commands. */
    method UnlinkChunk(chunk: seq<string>) returns (n: nat)
      modifies this
      ensures db == old(db) - Elements(chunk)
      ensures n == |old(db)| - |db|
    {
      n := 0;
      var i := 0;
      MinusNone(db);
      assert Elements(chunk[..0]) == {};
      while i < |chunk|
        invariant 0 <= i <= |chunk|
        invariant db == old(db) - Elements(chunk[..i])
        invariant n == |old(db)| - |db|
      {
        var r := Unlink(chunk[i]);
        n := n + r;
        MinusTwice(old(db), Elements(chunk[..i]), {chunk[i]});
        assert Elements(chunk[..i + 1]) == Elements(chunk[..i]) + {chunk[i]};
        i := i + 1;
      }
      assert chunk[..i] == chunk;
    }

    /** One batch, in chunks of at most 512 keys. */
    method UnlinkBatch(keys: seq<string>) returns (n: nat)
      modifies this
      ensures db == old(db) - Elements(keys)
      ensures n == |old(db)| - |db|
    {
      n := 0;
      var i := 0;
      MinusNone(db);
      assert Elements(keys[..0]) == {};
      while i < |keys|
        invariant 0 <= i <= |keys|
        invariant db == old(db) - Elements(keys[..i])
        invariant n == |old(db)| - |db|
      {
        var to := if i + CHUNK < |keys| then i + CHUNK else |keys|;
        var r := UnlinkChunk(keys[i..to]);
        n := n + r;
        MinusTwice(old(db), Elements(keys[..i]), Elements(keys[i..to]));
        ElementsSplit(keys, i, to);
        i := to;
      }
      assert keys[..i] == keys;
    }

    /**
     * `scan` holds the batches of keys that the successive SCAN calls return, until the
     * cursor comes back to zero. Keys may repeat, within a batch and across batches.
     */
    method Clear(scan: seq<seq<string>>) returns (deleted: nat)
      modifies this
      ensures db == old(db) - Returned(scan)
      ensures deleted == |old(db)| - |db|
    {
      deleted := 0;
      var b := 0;
      MinusNone(db);
      while b < |scan|
        invariant 0 <= b <= |scan|
        invariant db == old(db) - Returned(scan[..b])
        invariant deleted == |old(db)| - |db|
      {
        var n := UnlinkBatch(scan[b]);
        deleted := deleted + n;
        MinusTwice(old(db), Returned(scan[..b]), Elements(scan[b]));
        assert scan[..b + 1][..b] == scan[..b] && scan[..b + 1][b] == scan[b];
        b := b + 1;
      }
      assert scan[..b] == scan;
    }
  }

  /**
   * With no concurrent writer, a scan returns only keys that match, and every one of them.
   * Clearing plugin `p`, whose id has no glob characters, then removes every data and lock
   * key of `p` and no key of any other plugin.
   */
  lemma {:induction false} ClearIsExact(glob: Glob, db: map<string, string>, scan: seq<seq<string>>,
                     p: string, q: string, seg: Segment, k: string)
    requires MatchesLiterally(glob) && Literal(p) && ValidKey(k)
    requires forall key :: key in Returned(scan) ==> glob(ClearPattern(p), key)
    requires forall key :: key in db && glob(ClearPattern(p), key) ==> key in Returned(scan)
    ensures var key := Key(q, seg, k).value;
      key in db - Returned(scan) <==> key in db && StripBraces(p) != StripBraces(q)
  {
    ClearCoversOwnKeys(glob, p, q, seg, k);
  }
}
