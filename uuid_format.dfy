/**
 Canonicalisation of the raw device uuid: the first 32 characters are cut into
 groups of 8, 4, 4, 4 and 12 and joined with hyphens, the textual layout of
 section 3 of RFC 4122.
 */
module UuidFormat {

  function Min(a: int, b: int): (m: int)
  {
    if a <= b then a else b
  }

  /** Python's `s[lo:hi]` for 0 <= lo <= hi: a bound past the end is clamped to the end. */
  function Slice(s: string, lo: nat, hi: nat): (r: string)
    requires lo <= hi
  {
    s[Min(lo, |s|)..Min(hi, |s|)]
  }

  /** The five slices the script takes of the raw uuid. */
  function Groups(raw: string): (groups: seq<string>)
  {
    [Slice(raw, 0, 8), Slice(raw, 8, 12), Slice(raw, 12, 16), Slice(raw, 16, 20), Slice(raw, 20, 32)]
  }

  /** Python's `str.join` with a one-character separator. */
  function Join(sep: char, parts: seq<string>): (s: string)
  {
    if |parts| == 0 then ""
    else if |parts| == 1 then parts[0]
    else parts[0] + [sep] + Join(sep, parts[1..])
  }

  /** Python's `str.split` with a one-character separator: never empty. */
  function Split(s: string, sep: char): (parts: seq<string>)
    ensures |parts| >= 1
  {
    if |s| == 0 then [""]
    else
      var rest := Split(s[1..], sep);
      if s[0] == sep then [""] + rest else [[s[0]] + rest[0]] + rest[1..]
  }

  /** The concatenation of the parts, in order. */
  function Concat(parts: seq<string>): (s: string)
  {
    if |parts| == 0 then "" else parts[0] + Concat(parts[1..])
  }

  /** The string with every hyphen deleted. */
  function StripHyphens(s: string): (r: string)
  {
    if |s| == 0 then "" else (if s[0] == '-' then "" else [s[0]]) + StripHyphens(s[1..])
  }

  /** The canonical, hyphenated form of a raw device uuid. */
  function Canonical(raw: string): (u: string)
  {
    Join('-', Groups(raw))
  }

  lemma JoinFive(sep: char, a: string, b: string, c: string, d: string, e: string)
    ensures Join(sep, [a, b, c, d, e]) == a + [sep] + b + [sep] + c + [sep] + d + [sep] + e
  {
    assert [a, b, c, d, e][1..] == [b, c, d, e];
    assert [b, c, d, e][1..] == [c, d, e];
    assert [c, d, e][1..] == [d, e];
    assert [d, e][1..] == [e];
    assert Join(sep, [d, e]) == d + [sep] + e;
    assert Join(sep, [c, d, e]) == c + [sep] + (d + [sep] + e);
    assert Join(sep, [b, c, d, e]) == b + [sep] + (c + [sep] + (d + [sep] + e));
  }

  lemma ConcatFive(a: string, b: string, c: string, d: string, e: string)
    ensures Concat([a, b, c, d, e]) == a + b + c + d + e
  {
    assert [a, b, c, d, e][1..] == [b, c, d, e];
    assert [b, c, d, e][1..] == [c, d, e];
    assert [c, d, e][1..] == [d, e];
    assert [d, e][1..] == [e];
    assert [e][1..] == [];
    assert Concat([e]) == e + "" == e;
    assert Concat([d, e]) == d + e;
    assert Concat([c, d, e]) == c + (d + e);
    assert Concat([b, c, d, e]) == b + (c + (d + e));
  }

  /**
   For a 32-character raw uuid the canonical form has 36 characters: the raw
   characters in order, with a hyphen inserted at 8, 13, 18 and 23.
   */
  lemma CanonicalLayout(raw: string)
    requires |raw| == 32
    ensures var u := Canonical(raw);
            && u == raw[..8] + "-" + raw[8..12] + "-" + raw[12..16] + "-" + raw[16..20] + "-" + raw[20..]
            && |u| == 36
            && u[8] == '-' && u[13] == '-' && u[18] == '-' && u[23] == '-'
  {
    assert Slice(raw, 0, 8) == raw[..8];
    assert Slice(raw, 20, 32) == raw[20..];
    assert Groups(raw) == [raw[..8], raw[8..12], raw[12..16], raw[16..20], raw[20..]];
    JoinFive('-', raw[..8], raw[8..12], raw[12..16], raw[16..20], raw[20..]);
  }

  /** A raw uuid made of five groups of 8, 4, 4, 4 and 12 characters canonicalises to those groups joined by hyphens. */
  lemma CanonicalOfGroups(a: string, b: string, c: string, d: string, e: string)
    requires |a| == 8 && |b| == 4 && |c| == 4 && |d| == 4 && |e| == 12
    ensures Canonical(a + b + c + d + e) == a + "-" + b + "-" + c + "-" + d + "-" + e
  {
    var raw := a + b + c + d + e;
    assert raw == a + (b + (c + (d + e)));
    assert raw[8..] == b + (c + (d + e));
    assert raw[12..] == c + (d + e);
    assert raw[16..] == d + e;
    assert raw[8..12] == raw[8..][..4];
    assert raw[12..16] == raw[12..][..4];
    assert raw[16..20] == raw[16..][..4];
    CanonicalLayout(raw);
  }

  /**
   When the raw uuid has 32 characters and no hyphen, the hyphens of the
   canonical form are exactly those at 8, 13, 18 and 23.
   */
  lemma CanonicalHyphens(raw: string)
    requires |raw| == 32 && '-' !in raw
    ensures var u := Canonical(raw);
            forall i :: 0 <= i < |u| ==> (u[i] == '-' <==> i == 8 || i == 13 || i == 18 || i == 23)
  {
    var u := Canonical(raw);
    CanonicalLayout(raw);
    forall i | 0 <= i < |u|
      ensures u[i] == '-' <==> i == 8 || i == 13 || i == 18 || i == 23
    {
      if i < 8 {
        assert u[i] == raw[i];
      } else if 8 < i < 13 {
        assert u[i] == raw[i - 1];
      } else if 13 < i < 18 {
        assert u[i] == raw[i - 2];
      } else if 18 < i < 23 {
        assert u[i] == raw[i - 3];
      } else if 23 < i {
        assert u[i] == raw[i - 4];
      }
    }
  }

  /** Splitting a string that starts with a hyphen-free `a` extends the first part by `a`. */
  lemma {:induction false} SplitPrefix(a: string, t: string, sep: char)
    requires sep !in a
    ensures Split(a + t, sep) == [a + Split(t, sep)[0]] + Split(t, sep)[1..]
  {
    if |a| == 0 {
      assert a + t == t;
      assert a + Split(t, sep)[0] == Split(t, sep)[0];
      assert [Split(t, sep)[0]] + Split(t, sep)[1..] == Split(t, sep);
    } else {
      assert (a + t)[1..] == a[1..] + t;
      SplitPrefix(a[1..], t, sep);
      assert [a[0]] + (a[1..] + Split(t, sep)[0]) == a + Split(t, sep)[0];
    }
  }

  /** Splitting on the separator undoes joining with it, when no part contains it. */
  lemma {:induction false} SplitJoin(sep: char, parts: seq<string>)
    requires |parts| >= 1
    requires forall k :: 0 <= k < |parts| ==> sep !in parts[k]
    ensures Split(Join(sep, parts), sep) == parts
  {
    if |parts| == 1 {
      SplitPrefix(parts[0], "", sep);
      assert parts[0] + "" == parts[0];
    } else {
      var rest := Join(sep, parts[1..]);
      assert Join(sep, parts) == parts[0] + ([sep] + rest);
      SplitPrefix(parts[0], [sep] + rest, sep);
      assert ([sep] + rest)[1..] == rest;
      SplitJoin(sep, parts[1..]);
      assert parts[0] + "" == parts[0];
    }
  }

  /**
   The hyphen-separated groups of the canonical form are the five slices of the
   raw uuid; for a raw uuid of at least 32 characters they have 8, 4, 4, 4 and 12.
   */
  lemma CanonicalSplit(raw: string)
    requires '-' !in raw
    ensures Split(Canonical(raw), '-') == Groups(raw)
    ensures |raw| >= 32 ==>
              var g := Split(Canonical(raw), '-');
              |g[0]| == 8 && |g[1]| == 4 && |g[2]| == 4 && |g[3]| == 4 && |g[4]| == 12
  {
    var g := Groups(raw);
    forall k | 0 <= k < |g|
      ensures '-' !in g[k]
    {
      var lo := [0, 8, 12, 16, 20][k];
      var hi := [8, 12, 16, 20, 32][k];
      assert g[k] == Slice(raw, lo, hi);
      assert forall c :: c in Slice(raw, lo, hi) ==> c in raw;
    }
    SplitJoin('-', g);
  }

  lemma {:induction false} StripAppend(a: string, b: string)
    ensures StripHyphens(a + b) == StripHyphens(a) + StripHyphens(b)
  {
    if |a| > 0 {
      assert (a + b)[1..] == a[1..] + b;
      StripAppend(a[1..], b);
    } else {
      assert a + b == b;
    }
  }

  lemma {:induction false} StripPlain(a: string)
    requires '-' !in a
    ensures StripHyphens(a) == a
  {
    if |a| > 0 {
      StripPlain(a[1..]);
    }
  }

  /** Deleting the separators of a join gives the concatenation of hyphen-free parts. */
  lemma {:induction false} StripJoin(parts: seq<string>)
    requires forall k :: 0 <= k < |parts| ==> '-' !in parts[k]
    ensures StripHyphens(Join('-', parts)) == Concat(parts)
  {
    if |parts| == 1 {
      StripPlain(parts[0]);
      assert Concat(parts) == parts[0] + Concat([]);
      assert parts[0] + "" == parts[0];
    } else if |parts| > 1 {
      var rest := Join('-', parts[1..]);
      StripAppend(parts[0] + "-", rest);
      StripAppend(parts[0], "-");
      StripPlain(parts[0]);
      StripJoin(parts[1..]);
      assert StripHyphens("-") == "";
    }
  }

  /**
   Round trip: deleting the hyphens of the canonical form gives back the raw
   uuid, cut to its first 32 characters (the script drops the rest).
   */
  lemma CanonicalRoundTrip(raw: string)
    requires '-' !in raw
    ensures StripHyphens(Canonical(raw)) == raw[..Min(|raw|, 32)]
    ensures |raw| == 32 ==> StripHyphens(Canonical(raw)) == raw
  {
    var g := Groups(raw);
    forall k | 0 <= k < |g|
      ensures '-' !in g[k]
    {
      var lo := [0, 8, 12, 16, 20][k];
      var hi := [8, 12, 16, 20, 32][k];
      assert g[k] == Slice(raw, lo, hi);
      assert forall c :: c in Slice(raw, lo, hi) ==> c in raw;
    }
    StripJoin(g);
    ConcatFive(g[0], g[1], g[2], g[3], g[4]);
    var m := Min(|raw|, 32);
    assert g[0] + g[1] + g[2] + g[3] + g[4] == raw[..m];
    assert |raw| == 32 ==> raw[..m] == raw;
  }

  /** Characters past the 32nd never reach the canonical form. */
  lemma CanonicalTruncates(raw: string)
    requires |raw| >= 32
    ensures Canonical(raw) == Canonical(raw[..32])
  {
    var cut := raw[..32];
    assert Slice(raw, 0, 8) == Slice(cut, 0, 8);
    assert Slice(raw, 8, 12) == Slice(cut, 8, 12);
    assert Slice(raw, 12, 16) == Slice(cut, 12, 16);
    assert Slice(raw, 16, 20) == Slice(cut, 16, 20);
    assert Slice(raw, 20, 32) == Slice(cut, 20, 32);
    assert Groups(raw) == Groups(cut);
  }

}
