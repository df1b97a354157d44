/** Character strings as the shell sees them: a C string is a sequence of bytes without NUL. */
module Text {
  import opened Chars

  /** A C string ends at its first NUL, so it contains none. */
  ghost predicate NoNul(s: string) {
    forall i | 0 <= i < |s| :: s[i] != NUL
  }

  /** The value of a `char *`: bytes 1..255. */
  ghost predicate IsCString(s: string) {
    forall i | 0 <= i < |s| :: 1 <= s[i] as int <= 255
  }

  /** The text s stands at position i of t. */
  ghost predicate Holds(t: string, i: nat, s: string) {
    i + |s| <= |t| && t[i..i + |s|] == s
  }

  lemma HoldsSplit(t: string, i: nat, a: string, b: string)
    requires Holds(t, i, a + b)
    ensures Holds(t, i, a)
    ensures Holds(t, i + |a|, b)
  {
    assert t[i..i + |a + b|] == t[i..i + |a|] + t[i + |a|..i + |a| + |b|];
    assert (a + b)[..|a|] == a && (a + b)[|a|..] == b;
  }

  /** A non-empty text standing at i starts with its first byte. */
  lemma HoldsHead(t: string, i: nat, s: string)
    requires Holds(t, i, s) && s != ""
    ensures i < |t| && t[i] == s[0]
  {
    assert t[i] == t[i..i + |s|][0];
  }

  /** A text with one pair of braces picked out. */
  function Bracketed(pre: string, inside: string, post: string): string {
    pre + ("{" + (inside + ("}" + post)))
  }

  lemma BracketedParts(pre: string, inside: string, post: string)
    ensures var text, o, close := Bracketed(pre, inside, post), |pre|, |pre| + 1 + |inside|;
      && |text| == close + 1 + |post|
      && text[o] == '{' && text[close] == '}'
      && text[..o] == pre && text[o + 1..close] == inside && text[close + 1..] == post
      && Holds(text, 0, pre) && Holds(text, o + 1, inside)
  {
    var text, o, close := Bracketed(pre, inside, post), |pre|, |pre| + 1 + |inside|;
    var tail3 := "}" + post;
    var tail2 := inside + tail3;
    var tail1 := "{" + tail2;
    assert text == pre + tail1;
    hide *;
    FrontBack(pre, tail1);
    FrontBack("{", tail2);
    FrontBack(inside, tail3);
    FrontBack("}", post);
    DropDrop(text, o, 1);
    DropDrop(text, o + 1, |inside|);
    DropDrop(text, close, 1);
    HoldsFront(text, 0, pre, tail1);
    HoldsFront(text, o + 1, inside, tail3);
    assert text[o] == text[o..][0] && text[close] == text[close..][0];
  }

  lemma HoldsFront(t: string, i: nat, a: string, b: string)
    requires i <= |t| && t[i..] == a + b
    ensures i + |a| <= |t| && t[i..i + |a|] == a && Holds(t, i, a)
  {
    FrontBack(a, b);
    assert t[i..i + |a|] == t[i..][..|a|];
  }

  lemma FrontBack(a: string, b: string)
    ensures |a + b| == |a| + |b| && (a + b)[..|a|] == a && (a + b)[|a|..] == b
  {
  }

  lemma DropDrop(t: string, i: nat, j: nat)
    requires i + j <= |t|
    ensures t[i..][j..] == t[i + j..]
  {
  }

  lemma ConcatAssociative(a: string, b: string, c: string)
    ensures a + (b + c) == a + b + c
  {
  }

  lemma AppendTerm(r: string, term: string, rest: string)
    ensures (r + term + ",") + rest == r + (term + ("," + rest))
  {
  }

  lemma ReplaceLast(s: string, last: char)
    ensures (s + ",")[|s + ","| - 1 := last] == s + [last]
    ensures (s + ",")[..|s + ","| - 1] == s
  {
  }

  /** The words x + ys[0], x + ys[1], ... */
  function Prefix(x: string, ys: seq<string>): (r: seq<string>)
    ensures |r| == |ys| && forall k | 0 <= k < |r| :: r[k] == x + ys[k]
  {
    seq(|ys|, k requires 0 <= k < |ys| => x + ys[k])
  }

  /** All xs[i] + ys[j], in lexicographic order of (i, j). */
  function Cross(xs: seq<string>, ys: seq<string>): seq<string> {
    if xs == [] then [] else Prefix(xs[0], ys) + Cross(xs[1..], ys)
  }

  lemma {:induction false} CrossLength(xs: seq<string>, ys: seq<string>)
    ensures |Cross(xs, ys)| == |xs| * |ys|
  {
    if xs != [] {
      CrossLength(xs[1..], ys);
      assert |xs| * |ys| == |ys| + |xs[1..]| * |ys|;
    }
  }

  /** The word of a row and a column: the left factor is the slower one. */
  lemma {:induction false} CrossAt(xs: seq<string>, ys: seq<string>, i: nat, j: nat)
    requires i < |xs| && j < |ys|
    ensures i * |ys| + j < |Cross(xs, ys)| && Cross(xs, ys)[i * |ys| + j] == xs[i] + ys[j]
    decreases i
  {
    CrossLength(xs, ys);
    RowFits(i, |xs|, |ys|);
    if i > 0 {
      CrossAt(xs[1..], ys, i - 1, j);
      RowFits(i - 1, |xs|, |ys|);
      assert i * |ys| + j == |ys| + ((i - 1) * |ys| + j);
    }
  }

  lemma {:induction false} CrossAppend(xs: seq<string>, xs': seq<string>, ys: seq<string>)
    ensures Cross(xs + xs', ys) == Cross(xs, ys) + Cross(xs', ys)
  {
    if xs == [] {
      assert xs + xs' == xs';
    } else {
      assert (xs + xs')[1..] == xs[1..] + xs';
      CrossAppend(xs[1..], xs', ys);
    }
  }

  lemma RowFits(i: nat, rows: nat, width: nat)
    requires i < rows
    ensures (i + 1) * width == i * width + width <= rows * width
  {
    var more := rows - (i + 1);
    assert rows * width == (i + 1) * width + more * width;
  }

  /** One more row of the product. */
  lemma CrossRow(xs: seq<string>, i: nat, ys: seq<string>)
    requires i < |xs|
    ensures Cross(xs[..i + 1], ys) == Cross(xs[..i], ys) + Prefix(xs[i], ys)
  {
    hide Cross;
    assert xs[..i + 1] == xs[..i] + [xs[i]];
    CrossAppend(xs[..i], [xs[i]], ys);
    CrossSingle(xs[i], ys);
  }

  lemma PrefixConcat(x: string, y: string, zs: seq<string>)
    ensures Prefix(x, Prefix(y, zs)) == Prefix(x + y, zs)
  {
    forall k | 0 <= k < |zs| ensures Prefix(x, Prefix(y, zs))[k] == Prefix(x + y, zs)[k] {
      assert x + (y + zs[k]) == x + y + zs[k];
    }
  }

  lemma PrefixAppend(x: string, ys: seq<string>, zs: seq<string>)
    ensures Prefix(x, ys + zs) == Prefix(x, ys) + Prefix(x, zs)
  {
  }

  lemma PrefixEmpty(ys: seq<string>)
    ensures Prefix("", ys) == ys
  {
    forall k | 0 <= k < |ys| ensures Prefix("", ys)[k] == ys[k] {
      assert "" + ys[k] == ys[k];
    }
  }

  lemma {:induction false} CrossPrefix(x: string, ys: seq<string>, zs: seq<string>)
    ensures Cross(Prefix(x, ys), zs) == Prefix(x, Cross(ys, zs))
  {
    if ys != [] {
      assert Prefix(x, ys)[1..] == Prefix(x, ys[1..]);
      CrossPrefix(x, ys[1..], zs);
      PrefixConcat(x, ys[0], zs);
      PrefixAppend(x, Prefix(ys[0], zs), Cross(ys[1..], zs));
    }
  }

  lemma CrossSingle(x: string, ys: seq<string>)
    ensures Cross([x], ys) == Prefix(x, ys)
  {
    assert Cross([x], ys) == Prefix(x, ys) + [];
  }

  /** The empty word is a unit on the right... */
  lemma {:induction false} CrossUnitRight(xs: seq<string>)
    ensures Cross(xs, [""]) == xs
  {
    if xs != [] {
      CrossUnitRight(xs[1..]);
      assert xs[0] + "" == xs[0];
      assert Prefix(xs[0], [""]) == [xs[0]];
    }
  }

  /** ... and on the left. */
  lemma CrossUnitLeft(ys: seq<string>)
    ensures Cross([""], ys) == ys
  {
    CrossSingle("", ys);
    PrefixEmpty(ys);
  }
}
