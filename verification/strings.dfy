/**
 * `String.prototype.split` with a one-character separator, as the handlers use it to
 * turn "a,b,c" into a token list and to cut a photo URL at '/' and '.'.
 */
module Strings {

  /** The inverse of `Split`: the pieces glued back together with `c` between them. */
  function Join(pieces: seq<string>, c: char): string
    requires |pieces| > 0
  {
    if |pieces| == 1 then pieces[0] else pieces[0] + [c] + Join(pieces[1..], c)
  }

  /**
   * The pieces of `s` between occurrences of `c`: never empty (""split gives [""]),
   * no piece holds `c`, and gluing them back gives `s`.
   */
  function Split(s: string, c: char): (pieces: seq<string>)
    ensures |pieces| > 0
    ensures forall i :: 0 <= i < |pieces| ==> c !in pieces[i]
    ensures Join(pieces, c) == s
  {
    if s == [] then [""]
    else
      var rest := Split(s[1..], c);
      if s[0] == c then
        [""] + rest
      else
        assert s == [s[0]] + s[1..];
        [[s[0]] + rest[0]] + rest[1..]
  }

  /** `Array.prototype.pop` on a split: the last piece. */
  function Last(pieces: seq<string>): string
    requires |pieces| > 0
  {
    pieces[|pieces| - 1]
  }

  /** Splitting `p + t` where `p` has no separator glues `p` onto the first piece of `t`. */
  lemma {:induction false} SplitPrefix(p: string, t: string, c: char)
    requires c !in p
    ensures Split(p + t, c) == [p + Split(t, c)[0]] + Split(t, c)[1..]
    decreases |p|
  {
    var st := Split(t, c);
    if p != [] {
      assert (p + t)[0] == p[0] && (p + t)[1..] == p[1..] + t;
      SplitPrefix(p[1..], t, c);
      assert [p[0]] + (p[1..] + st[0]) == p + st[0];
    } else {
      assert p + t == t && p + st[0] == st[0];
      assert st == [st[0]] + st[1..];
    }
  }

  /** Round trip: splitting what `Join` glued gives back the pieces. */
  lemma {:induction false} SplitJoin(pieces: seq<string>, c: char)
    requires |pieces| > 0
    requires forall i :: 0 <= i < |pieces| ==> c !in pieces[i]
    ensures Split(Join(pieces, c), c) == pieces
    decreases |pieces|
  {
    if |pieces| == 1 {
      SplitPrefix(pieces[0], "", c);
      assert pieces[0] + "" == pieces[0];
    } else {
      var t := Join(pieces[1..], c);
      var u := [c] + t;
      assert Join(pieces, c) == pieces[0] + u;
      SplitJoin(pieces[1..], c);
      assert Split(u, c) == [""] + Split(t, c) by {
        assert u[0] == c && u[1..] == t;
      }
      SplitPrefix(pieces[0], u, c);
      assert pieces[0] + "" == pieces[0];
      assert pieces == [pieces[0]] + pieces[1..];
    }
  }
}
