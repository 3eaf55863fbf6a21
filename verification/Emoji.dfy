/** The :shortcode: rewriter. */
module Emoji {
  import opened Primitives

  const SHORTCODES: map<string, string> := map[
    "smile" := "\U{1F604}",
    "grin" := "\U{1F601}",
    "joy" := "\U{1F602}",
    "heart" := "\U{2764}\U{FE0F}",
    "thumbsup" := "\U{1F44D}",
    "thumbsdown" := "\U{1F44E}",
    "fire" := "\U{1F525}",
    "tada" := "\U{1F389}",
    "rocket" := "\U{1F680}",
    "eyes" := "\U{1F440}",
    "wave" := "\U{1F44B}",
    "lock" := "\U{1F512}"
  ]

  /** Lower case, for the characters that can lead into the table: ASCII capitals, the dotted
      capital I and the Kelvin sign. */
  function Lower(c: char): char {
    if 'A' <= c <= 'Z' then c + 32 as char
    else if c == '\U{0130}' then 'i'
    else if c == '\U{212A}' then 'k'
    else c
  }

  function ToLower(s: string): string {
    seq(|s|, i requires 0 <= i < |s| => Lower(s[i]))
  }

  function Lookup(shortcode: string): Option<string> {
    if ToLower(shortcode) in SHORTCODES then Some(SHORTCODES[ToLower(shortcode)]) else None
  }

  lemma LowerStays(s: string)
    requires forall i :: 0 <= i < |s| ==> 'a' <= s[i] <= 'z'
    ensures ToLower(s) == s
  {
  }

  /** Which emoji a name gives. */
  lemma CatalogFaces()
    ensures Lookup("smile") == Some("\U{1F604}") && Lookup("grin") == Some("\U{1F601}")
    ensures Lookup("joy") == Some("\U{1F602}") && Lookup("heart") == Some("\U{2764}\U{FE0F}")
  {
    hide ToLower;
    LowerStays("smile");
    LowerStays("grin");
    LowerStays("joy");
    LowerStays("heart");
  }

  lemma CatalogSigns()
    ensures Lookup("thumbsup") == Some("\U{1F44D}") && Lookup("thumbsdown") == Some("\U{1F44E}")
    ensures Lookup("fire") == Some("\U{1F525}") && Lookup("tada") == Some("\U{1F389}")
  {
    hide ToLower;
    LowerStays("thumbsup");
    LowerStays("thumbsdown");
    LowerStays("fire");
    LowerStays("tada");
  }

  lemma CatalogThings()
    ensures Lookup("rocket") == Some("\U{1F680}") && Lookup("eyes") == Some("\U{1F440}")
    ensures Lookup("wave") == Some("\U{1F44B}") && Lookup("lock") == Some("\U{1F512}")
  {
    hide ToLower;
    LowerStays("rocket");
    LowerStays("eyes");
    LowerStays("wave");
    LowerStays("lock");
  }

  lemma CatalogOnly(name: string)
    ensures var names := {"smile", "grin", "joy", "heart", "thumbsup", "thumbsdown", "fire", "tada", "rocket", "eyes", "wave", "lock"};
      Lookup(name).Some? <==> ToLower(name) in names
  {
  }

  /** The two spell the same but for the case of ASCII letters. */
  predicate SameButCase(s: string, t: string) {
    |s| == |t| && forall i :: 0 <= i < |s| ==>
      || s[i] == t[i]
      || ('A' <= s[i] <= 'Z' && t[i] as int == s[i] as int + 32)
      || ('A' <= t[i] <= 'Z' && s[i] as int == t[i] as int + 32)
  }

  /** Names are found whatever the case of their letters, and nothing but the catalog is found. */
  lemma LookupIgnoresCase(s: string, t: string)
    requires SameButCase(s, t)
    ensures Lookup(s) == Lookup(t)
  {
    assert ToLower(s) == ToLower(t);
  }

  predicate NoColon(s: string) {
    forall i :: 0 <= i < |s| ==> s[i] != ':'
  }

  /** Emoji hold no colon and are shorter than any token. */
  lemma EmojiShape(name: string)
    requires Lookup(name).Some?
    ensures NoColon(Lookup(name).value) && |Lookup(name).value| < |name| + 2
  {
    var n := ToLower(name);
    assert n in {"smile", "grin", "joy", "heart", "thumbsup", "thumbsdown", "fire", "tada", "rocket", "eyes", "wave", "lock"};
    assert |n| == |name|;
  }

  // ---- The specification: split at colons, pair the segments ----

  /** The pieces between colons. */
  function Segments(s: string): (r: seq<string>)
    ensures r != [] && forall i :: 0 <= i < |r| ==> NoColon(r[i])
  {
    if s == [] then [""]
    else
      var rest := Segments(s[1..]);
      if s[0] == ':' then [""] + rest else [[s[0]] + rest[0]] + rest[1..]
  }

  function Join(segs: seq<string>): string
    requires segs != []
  {
    if |segs| == 1 then segs[0] else segs[0] + ":" + Join(segs[1..])
  }

  function Token(name: string): string {
    match Lookup(name)
    case Some(e) => e
    case None => ":" + name + ":"
  }

  /** Colons pair up from the left; the segment inside a pair is a name. */
  function Paired(segs: seq<string>): string
    requires segs != []
  {
    if |segs| <= 2 then Join(segs) else segs[0] + Token(segs[1]) + Paired(segs[2..])
  }

  function Rewrite(s: string): string {
    Paired(Segments(s))
  }

  /** Some name inside a colon pair is in the table. */
  predicate HasKnown(segs: seq<string>) {
    |segs| >= 3 && (Lookup(segs[1]).Some? || HasKnown(segs[2..]))
  }

  lemma {:induction false} SegmentsCut(p: string, t: string)
    requires NoColon(p)
    ensures Segments(p + ":" + t) == [p] + Segments(t)
  {
    var s := p + ":" + t;
    if p == "" {
      assert s[1..] == t;
    } else {
      SegmentsCut(p[1..], t);
      assert s[1..] == p[1..] + ":" + t;
      assert p == [p[0]] + p[1..];
    }
  }

  lemma {:induction false} SegmentsPlain(s: string)
    requires NoColon(s)
    ensures Segments(s) == [s]
  {
    if s != "" {
      SegmentsPlain(s[1..]);
      assert s == [s[0]] + s[1..];
    }
  }

  lemma RewritePlain(s: string)
    requires NoColon(s)
    ensures Rewrite(s) == s
  {
    SegmentsPlain(s);
  }

  lemma {:induction false} JoinSegments(s: string)
    ensures Join(Segments(s)) == s
  {
    if s != "" {
      JoinSegments(s[1..]);
      var rest := Segments(s[1..]);
      if s[0] == ':' {
        assert ([""] + rest)[1..] == rest;
      } else {
        assert ([[s[0]] + rest[0]] + rest[1..])[1..] == rest[1..];
      }
      assert s == [s[0]] + s[1..];
    }
  }

  /** One colon pair off the front. */
  lemma RewritePair(p: string, name: string, t: string)
    requires NoColon(p) && NoColon(name)
    ensures Rewrite(p + ":" + name + ":" + t) == p + Token(name) + Rewrite(t)
    ensures Lookup(name).Some? ==> Rewrite(p + ":" + name + ":" + t) == p + Lookup(name).value + Rewrite(t)
    ensures Lookup(name).None? ==> Rewrite(p + ":" + name + ":" + t) == p + (":" + name + ":") + Rewrite(t)
  {
    hide Lookup, NoColon;
    SegmentsCut(name, t);
    SegmentsCut(p, name + ":" + t);
    assert p + ":" + name + ":" + t == p + ":" + (name + ":" + t);
    var segs := [p] + ([name] + Segments(t));
    assert segs[2..] == Segments(t);
  }

  // ---- The implementation ----

  method IndexColon(s: string, first: nat) returns (i: int)
    requires first <= |s|
    ensures i < 0 ==> NoColon(s[first..])
    ensures i >= 0 ==> first <= i < |s| && s[i] == ':' && NoColon(s[first..i])
  {
    i := first;
    while i < |s|
      invariant first <= i <= |s|
      invariant forall k :: first <= k < i ==> s[k] != ':'
    {
      if s[i] == ':' {
        return;
      }
      i := i + 1;
    }
    assert s[first..] == s[first..i];
    i := -1;
  }

  method Replace(text: string) returns (b: string)
    ensures b == Rewrite(text)
  {
    hide Rewrite, Lookup, NoColon;
    var s := text;
    b := "";
    while true
      invariant Rewrite(text) == b + Rewrite(s)
      decreases |s|
    {
      var start := IndexColon(s, 0);
      if start < 0 {
        assert s[0..] == s;
        RewritePlain(s);
        b := b + s;
        break;
      }
      var end := IndexColon(s, start + 1);
      if end < 0 {
        LoneColon(s, start);
        b := b + s[..start] + s[start..];
        break;
      }
      FirstPair(b, s, start, end);
      var name := s[start + 1..end];
      b := b + s[..start];
      var e := Lookup(name);
      if e.Some? {
        b := b + e.value;
      } else {
        b := b + (":" + name + ":");
      }
      s := s[end + 1..];
    }
  }

  /** Taking the first colon pair off what is left. */
  lemma FirstPair(b: string, s: string, start: nat, end: nat)
    requires start < end < |s| && s[start] == ':' && s[end] == ':' && NoColon(s[0..start]) && NoColon(s[start + 1..end])
    ensures b + Rewrite(s) == b + s[..start] + Token(s[start + 1..end]) + Rewrite(s[end + 1..])
  {
    hide Rewrite, Token;
    var p, name, rest := s[..start], s[start + 1..end], s[end + 1..];
    assert s[0..start] == p;
    assert s == p + ":" + name + ":" + rest;
    RewritePair(p, name, rest);
  }

  lemma LoneColon(s: string, start: nat)
    requires start < |s| && s[start] == ':' && NoColon(s[0..start]) && NoColon(s[start + 1..])
    ensures Rewrite(s) == s == s[..start] + s[start..]
  {
    var p, t := s[..start], s[start + 1..];
    assert p == s[0..start];
    assert s == p + ":" + t;
    SegmentsCut(p, t);
    SegmentsPlain(t);
    JoinSegments(s);
  }

  // ---- Properties ----

  lemma {:induction false} PairedLength(segs: seq<string>)
    requires segs != []
    ensures |Paired(segs)| <= |Join(segs)|
    ensures |Paired(segs)| == |Join(segs)| <==> !HasKnown(segs)
    ensures !HasKnown(segs) ==> Paired(segs) == Join(segs)
  {
    if |segs| >= 3 {
      PairedLength(segs[2..]);
      assert segs[1..][1..] == segs[2..];
      assert Join(segs) == segs[0] + ":" + (segs[1] + ":" + Join(segs[2..]));
      if Lookup(segs[1]).Some? {
        EmojiShape(segs[1]);
      }
    }
  }

  /** A string is left unchanged if and only if no colon pair holds a known name. */
  lemma UnchangedExactly(s: string)
    ensures Rewrite(s) == s <==> !HasKnown(Segments(s))
  {
    PairedLength(Segments(s));
    JoinSegments(s);
  }

  lemma {:induction false} RewritePrefix(p: string, s: string)
    requires NoColon(p)
    ensures Rewrite(p + s) == p + Rewrite(s)
  {
    hide Token;
    var segs := Segments(s);
    SegmentsPrefix(p, s);
    if |segs| > 2 {
      assert ([p + segs[0]] + segs[1..])[2..] == segs[2..];
    } else if |segs| == 2 {
      assert ([p + segs[0]] + segs[1..])[1..] == segs[1..];
    }
  }

  lemma {:induction false} SegmentsPrefix(p: string, s: string)
    requires NoColon(p)
    ensures Segments(p + s) == [p + Segments(s)[0]] + Segments(s)[1..]
  {
    if p == "" {
      assert p + s == s && p + Segments(s)[0] == Segments(s)[0];
      assert [Segments(s)[0]] + Segments(s)[1..] == Segments(s);
    } else {
      SegmentsPrefix(p[1..], s);
      var r := Segments(s);
      assert (p + s)[1..] == p[1..] + s;
      assert ([p[1..] + r[0]] + r[1..])[1..] == r[1..];
      assert [p[0]] + (p[1..] + r[0]) == p + r[0];
    }
  }

  lemma ShortFixed(segs: seq<string>)
    requires 1 <= |segs| <= 2 && forall i :: 0 <= i < |segs| ==> NoColon(segs[i])
    ensures Segments(Join(segs)) == segs
  {
    if |segs| == 1 {
      SegmentsPlain(segs[0]);
    } else {
      assert segs[1..] == [segs[1]];
      assert Join(segs) == segs[0] + ":" + segs[1];
      SegmentsCut(segs[0], segs[1]);
      SegmentsPlain(segs[1]);
    }
  }

  lemma {:induction false} PairedFixed(segs: seq<string>)
    requires segs != [] && forall i :: 0 <= i < |segs| ==> NoColon(segs[i])
    ensures Rewrite(Paired(segs)) == Paired(segs)
  {
    hide Lookup;
    var out := Paired(segs);
    if |segs| <= 2 {
      ShortFixed(segs);
    } else {
      var rest := Paired(segs[2..]);
      PairedFixed(segs[2..]);
      if Lookup(segs[1]).Some? {
        EmojiShape(segs[1]);
        var p := segs[0] + Token(segs[1]);
        RewritePrefix(p, rest);
      } else {
        assert out == segs[0] + ":" + segs[1] + ":" + rest;
        RewritePair(segs[0], segs[1], rest);
      }
    }
  }

  /** Rewriting twice is rewriting once. */
  lemma Idempotent(s: string)
    ensures Rewrite(Rewrite(s)) == Rewrite(s)
  {
    PairedFixed(Segments(s));
  }
}
