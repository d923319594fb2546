/**
 * The PHP values the option setters handle: scalars, strings and ordered
 * arrays, plus `explode(',', s)`, which `setTags` applies to a tag string.
 */
module Php {

  /** A PHP array key is an integer or a string. */
  datatype Key = IntKey(i: int) | StrKey(s: string)

  /**
   * A PHP value as it reaches the setters. Floats, objects and resources are
   * not part of this model.
   */
  datatype Value =
    | Null
    | Bool(b: bool)
    | Int(i: int)
    | Str(s: string)
    | Arr(entries: seq<Entry>)

  /** One key/value pair of an array, in insertion order. */
  datatype Entry = Entry(key: Key, val: Value)

  /** An array is a list when its keys are 0, 1, ..., n-1 in this order. */
  predicate IsList(entries: seq<Entry>)
  {
    forall k :: 0 <= k < |entries| ==> entries[k].key == IntKey(k)
  }

  /** The number of commas in `s`. */
  function Commas(s: string): nat
  {
    multiset(s)[',']
  }

  /** The inverse of `Explode`: the pieces glued back with commas between them. */
  function Implode(pieces: seq<string>): string
    requires |pieces| >= 1
    decreases |pieces|
  {
    if |pieces| == 1 then pieces[0] else pieces[0] + [','] + Implode(pieces[1..])
  }

  /**
   * `explode(',', s)`: the pieces of `s` between its commas, in order and
   * untrimmed. There is always one piece more than there are commas, so the
   * empty string gives one empty piece.
   */
  function Explode(s: string): (pieces: seq<string>)
    ensures |pieces| == Commas(s) + 1
    ensures forall k :: 0 <= k < |pieces| ==> ',' !in pieces[k]
  {
    if |s| == 0 then [""]
    else
      var rest := Explode(s[1..]);
      assert s == [s[0]] + s[1..];
      assert multiset(s) == multiset([s[0]]) + multiset(s[1..]);
      if s[0] == ',' then [""] + rest
      else [[s[0]] + rest[0]] + rest[1..]
  }

  /** Gluing the pieces of `s` back together with commas gives `s` again. */
  lemma {:induction false} ImplodeExplode(s: string)
    ensures Implode(Explode(s)) == s
    decreases |s|
  {
    if |s| > 0 {
      ImplodeExplode(s[1..]);
      ExplodeStep(s);
      if s[0] == ',' {
        ImplodeComma(Explode(s[1..]));
      } else {
        ImplodeGlue(s[0], Explode(s[1..]));
      }
      assert s == [s[0]] + s[1..];
    }
  }

  /** How the first character of `s` joins the pieces of the rest of `s`. */
  lemma ExplodeStep(s: string)
    requires |s| > 0
    ensures var rest := Explode(s[1..]);
      Explode(s) == if s[0] == ',' then [""] + rest else [[s[0]] + rest[0]] + rest[1..]
  {
  }

  /** An empty piece in front adds a comma in front. */
  lemma ImplodeComma(pieces: seq<string>)
    requires |pieces| >= 1
    ensures Implode([""] + pieces) == [','] + Implode(pieces)
  {
    var r := [""] + pieces;
    assert r[1..] == pieces;
  }

  /** A character glued to the front of the first piece is glued to the front of the whole. */
  lemma ImplodeGlue(c: char, pieces: seq<string>)
    requires |pieces| >= 1
    ensures Implode([[c] + pieces[0]] + pieces[1..]) == [c] + Implode(pieces)
  {
    if |pieces| == 1 {
      ImplodeGlueOne(c, pieces);
    } else {
      ImplodeGlueMore(c, pieces);
    }
  }

  lemma ImplodeGlueOne(c: char, pieces: seq<string>)
    requires |pieces| == 1
    ensures Implode([[c] + pieces[0]] + pieces[1..]) == [c] + Implode(pieces)
  {
    var r := [[c] + pieces[0]] + pieces[1..];
    assert r == [[c] + pieces[0]];
  }

  lemma ImplodeGlueMore(c: char, pieces: seq<string>)
    requires |pieces| > 1
    ensures Implode([[c] + pieces[0]] + pieces[1..]) == [c] + Implode(pieces)
  {
    var h := [c] + pieces[0];
    var r := [h] + pieces[1..];
    var glued := Implode(pieces[1..]);
    assert r[0] == h && r[1..] == pieces[1..];
    assert Implode(r) == h + [','] + glued;
    ConcatAssoc(h, [','], glued);
    ConcatAssoc(pieces[0], [','], glued);
    ConcatAssoc([c], pieces[0], [','] + glued);
  }

  lemma ConcatAssoc(a: string, b: string, d: string)
    ensures (a + b) + d == a + (b + d)
  {
  }

  /** Splitting a string glued from comma-free pieces gives back those pieces. */
  lemma {:induction false} ExplodeImplode(pieces: seq<string>)
    requires |pieces| >= 1
    requires forall k :: 0 <= k < |pieces| ==> ',' !in pieces[k]
    ensures Explode(Implode(pieces)) == pieces
    decreases |pieces|
  {
    var p0 := pieces[0];
    if |pieces| == 1 {
      ExplodeCommaFree(p0, []);
      assert p0 + [] == p0;
    } else {
      var tail := pieces[1..];
      var glued := Implode(tail);
      ExplodeImplode(tail);
      var u := [','] + glued;
      assert u[0] == ',' && u[1..] == glued;
      var e := Explode(u);
      assert e == [""] + tail;
      ExplodeCommaFree(p0, u);
      assert Implode(pieces) == p0 + u;
      assert e[0] == "" && e[1..] == tail;
      assert p0 + e[0] == p0;
      assert pieces == [p0] + tail;
    }
  }

  /**
   * A comma-free prefix sticks to the first piece of whatever follows it:
   * `Explode(a + t)` is `Explode(t)` with `a` put in front of its first piece.
   */
  lemma {:induction false} ExplodeCommaFree(a: string, t: string)
    requires ',' !in a
    ensures Explode(a + t) == [a + Explode(t)[0]] + Explode(t)[1..]
    decreases |a|
  {
    if |a| > 0 {
      var e := Explode(t);
      var s := a + t;
      assert s[0] == a[0] && s[1..] == a[1..] + t;
      ExplodeCommaFree(a[1..], t);
      var r := Explode(s[1..]);
      assert r[0] == a[1..] + e[0] && r[1..] == e[1..];
      assert Explode(s) == [[s[0]] + r[0]] + r[1..];
      assert [a[0]] + (a[1..] + e[0]) == a + e[0];
    } else {
      var e := Explode(t);
      assert a + t == t && a + e[0] == e[0];
      assert [e[0]] + e[1..] == e;
    }
  }

  /** A PHP list holding the given strings. */
  function StringList(items: seq<string>): (a: seq<Entry>)
    ensures |a| == |items| && IsList(a)
    ensures forall k :: 0 <= k < |a| ==> a[k].val == Str(items[k])
  {
    seq(|items|, k requires 0 <= k < |items| => Entry(IntKey(k), Str(items[k])))
  }

  /** Decimal digits, as PHP writes integers. */
  predicate IsDigit(c: char)
  {
    '0' <= c <= '9'
  }

  function DigitChar(d: nat): (c: char)
    requires d < 10
    ensures IsDigit(c)
  {
    ('0' as int + d) as char
  }

  /** The decimal digits of a natural number, without leading zeros. */
  function Digits(n: nat): (ds: string)
    ensures |ds| > 0
    ensures forall k :: 0 <= k < |ds| ==> IsDigit(ds[k])
    ensures ds[0] == '0' <==> n == 0
  {
    if n < 10 then [DigitChar(n)] else Digits(n / 10) + [DigitChar(n % 10)]
  }

  /** `(string) $i`: an integer in decimal, with a minus sign when negative. */
  function Decimal(i: int): string
  {
    if i < 0 then ['-'] + Digits(-i) else Digits(i)
  }
}
