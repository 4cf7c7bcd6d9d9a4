/**
 * `String.prototype.split('/')` and the matching join, as used to cut a
 * request path into positional parameters and to build demo file paths.
 */
module PathText {

  /** `pieces.join(sep)`. */
  function JoinWith(pieces: seq<string>, sep: string): string {
    if |pieces| == 0 then ""
    else if |pieces| == 1 then pieces[0]
    else pieces[0] + sep + JoinWith(pieces[1..], sep)
  }

  /** `s.split('/')`: never empty, no piece holds a `/`, and joining the pieces gives `s` back. */
  function Split(s: string): (pieces: seq<string>)
    ensures |pieces| >= 1
    ensures forall i :: 0 <= i < |pieces| ==> '/' !in pieces[i]
    ensures JoinWith(pieces, "/") == s
  {
    if s == [] then [""]
    else
      var rest := Split(s[1..]);
      if s[0] == '/' then
        [""] + rest
      else
        assert rest == [rest[0]] + rest[1..];
        [[s[0]] + rest[0]] + rest[1..]
  }

  lemma {:induction false} SplitSlashFree(p: string)
    requires '/' !in p
    ensures Split(p) == [p]
  {
    if p != [] {
      SplitSlashFree(p[1..]);
    }
  }

  lemma {:induction false} SplitAfterPiece(p: string, rest: string)
    requires '/' !in p
    ensures Split(p + "/" + rest) == [p] + Split(rest)
  {
    if p == [] {
      assert p + "/" + rest == "/" + rest;
    } else {
      assert (p + "/" + rest)[1..] == p[1..] + "/" + rest;
      SplitAfterPiece(p[1..], rest);
      var r := Split(p[1..] + "/" + rest);
      assert r[0] == p[1..] && r[1..] == Split(rest);
      assert [p[0]] + p[1..] == p;
    }
  }

  /** A string splits into a single piece exactly when it holds no `/`. */
  lemma SplitIsOnePiece(s: string)
    ensures |Split(s)| == 1 <==> '/' !in s
  {
    if '/' !in s {
      SplitSlashFree(s);
    }
  }

  /** Splitting a join of slash-free pieces gives the pieces back. */
  lemma {:induction false} SplitJoin(pieces: seq<string>)
    requires |pieces| >= 1
    requires forall i :: 0 <= i < |pieces| ==> '/' !in pieces[i]
    ensures Split(JoinWith(pieces, "/")) == pieces
  {
    if |pieces| == 1 {
      SplitSlashFree(pieces[0]);
    } else {
      SplitJoin(pieces[1..]);
      SplitAfterPiece(pieces[0], JoinWith(pieces[1..], "/"));
    }
  }

  /** Appending a piece appends the separator and the piece. */
  lemma {:induction false} JoinWithAppend(pieces: seq<string>, last: string, sep: string)
    requires |pieces| >= 1
    ensures JoinWith(pieces + [last], sep) == JoinWith(pieces, sep) + sep + last
  {
    if |pieces| > 1 {
      assert (pieces + [last])[1..] == pieces[1..] + [last];
      JoinWithAppend(pieces[1..], last, sep);
    }
  }
}
