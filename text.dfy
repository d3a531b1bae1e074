/**
 * String splitting as JavaScript's `String.prototype.split` does it: with the
 * one-character field separator `','` (and `'A'`, `'D'`, `'/'`, `':'`), and
 * with the two-character line terminator `"\r\n"` of the configuration file.
 */
module Text {

  /** The field separator of the configuration file (the global `SEPERATOR`). */
  const Separator: char := ','

  /** Pieces of `s` between the occurrences of `sep`, left to right. */
  function Split(s: string, sep: char): (parts: seq<string>)
    ensures |parts| >= 1
  {
    if |s| == 0 then [""]
    else
      var rest := Split(s[1..], sep);
      if s[0] == sep then [""] + rest
      else [[s[0]] + rest[0]] + rest[1..]
  }

  /** The inverse of `Split`: the pieces glued back with `sep` between them. */
  function Join(parts: seq<string>, sep: char): string
    requires |parts| >= 1
  {
    if |parts| == 1 then parts[0] else parts[0] + [sep] + Join(parts[1..], sep)
  }

  /** Number of occurrences of `c` in `s`. */
  function Occurrences(s: string, c: char): nat
  {
    if |s| == 0 then 0 else (if s[0] == c then 1 else 0) + Occurrences(s[1..], c)
  }

  /** Splitting loses nothing: joining the pieces gives back the text. */
  lemma {:induction false} JoinSplit(s: string, sep: char)
    ensures Join(Split(s, sep), sep) == s
  {
    if |s| > 0 {
      var rest := Split(s[1..], sep);
      JoinSplit(s[1..], sep);
      if s[0] == sep {
        assert Split(s, sep)[1..] == rest;
      } else {
        var parts := Split(s, sep);
        if |rest| == 1 {
          assert parts == [[s[0]] + rest[0]];
        } else {
          assert parts[1..] == rest[1..];
          assert Join(rest, sep) == rest[0] + [sep] + Join(rest[1..], sep);
        }
        assert s == [s[0]] + s[1..];
      }
    }
  }

  /** No piece contains the separator, and there is one piece more than separators. */
  lemma {:induction false} SplitPieces(s: string, sep: char)
    ensures |Split(s, sep)| == Occurrences(s, sep) + 1
    ensures forall k :: 0 <= k < |Split(s, sep)| ==> sep !in Split(s, sep)[k]
  {
    if |s| > 0 {
      SplitPieces(s[1..], sep);
      var rest := Split(s[1..], sep);
      var parts := Split(s, sep);
      if s[0] != sep {
        forall k | 0 <= k < |parts| ensures sep !in parts[k] {
          if k == 0 {
            assert sep !in rest[0];
          } else {
            assert parts[k] == rest[k];
          }
        }
      } else {
        forall k | 0 <= k < |parts| ensures sep !in parts[k] {
          if k > 0 {
            assert parts[k] == rest[k - 1];
          }
        }
      }
    }
  }

  /** A piece free of `sep` followed by `sep` splits off as the first piece. */
  lemma {:induction false} SplitPrefix(p: string, sep: char, s: string)
    requires sep !in p
    ensures Split(p + [sep] + s, sep) == [p] + Split(s, sep)
  {
    if |p| == 0 {
      assert p + [sep] + s == [sep] + s;
      assert ([sep] + s)[1..] == s;
    } else {
      SplitPrefix(p[1..], sep, s);
      assert (p + [sep] + s)[1..] == p[1..] + [sep] + s;
      assert [p[0]] + p[1..] == p;
    }
  }

  /** Text without the separator is one piece. */
  lemma {:induction false} SplitNone(p: string, sep: char)
    requires sep !in p
    ensures Split(p, sep) == [p]
  {
    if |p| > 0 {
      SplitNone(p[1..], sep);
      assert [p[0]] + p[1..] == p;
    }
  }

  /** Joining pieces that are free of the separator, then splitting, gives the pieces back. */
  lemma {:induction false} SplitJoin(parts: seq<string>, sep: char)
    requires |parts| >= 1
    requires forall k :: 0 <= k < |parts| ==> sep !in parts[k]
    ensures Split(Join(parts, sep), sep) == parts
  {
    if |parts| == 1 {
      SplitNone(parts[0], sep);
    } else {
      SplitJoin(parts[1..], sep);
      SplitPrefix(parts[0], sep, Join(parts[1..], sep));
      assert [parts[0]] + parts[1..] == parts;
    }
  }

  /** Splitting the joined `head + extra` gives `head` back as its first pieces. */
  lemma SplitJoinHead(head: seq<string>, extra: seq<string>, sep: char)
    requires |head| >= 1
    requires forall k :: 0 <= k < |head| ==> sep !in head[k]
    requires forall k :: 0 <= k < |extra| ==> sep !in extra[k]
    ensures |Split(Join(head + extra, sep), sep)| >= |head|
    ensures Split(Join(head + extra, sep), sep)[..|head|] == head
  {
    var fs := head + extra;
    forall k | 0 <= k < |fs| ensures sep !in fs[k] {
      if k >= |head| {
        assert fs[k] == extra[k - |head|];
      } else {
        assert fs[k] == head[k];
      }
    }
    SplitJoin(fs, sep);
    assert fs[..|head|] == head;
  }

  /** Three separator-free pieces joined by `sep` split back into those three pieces. */
  lemma SplitThree(a: string, b: string, c: string, sep: char)
    requires sep !in a && sep !in b && sep !in c
    ensures Split(a + [sep] + b + [sep] + c, sep) == [a, b, c]
  {
    SplitNone(c, sep);
    SplitPrefix(b, sep, c);
    SplitPrefix(a, sep, b + [sep] + c);
    assert a + [sep] + b + [sep] + c == a + [sep] + (b + [sep] + c);
  }

  /** The text before the first `c` (JavaScript's `s.split(c)[0]`). */
  function Before(s: string, c: char): (r: string)
    ensures r == Split(s, c)[0]
    ensures c !in r && r <= s
    ensures |r| < |s| ==> s[|r|] == c
  {
    if |s| == 0 then ""
    else if s[0] == c then ""
    else [s[0]] + Before(s[1..], c)
  }

  /** `true` when `"\r\n"` starts at position `i` of `s`. */
  predicate CrLfAt(s: string, i: int)
  {
    0 <= i && i + 1 < |s| && s[i] == '\r' && s[i + 1] == '\n'
  }

  /** `s` contains no `"\r\n"`. */
  predicate NoCrLf(s: string)
  {
    forall i :: 0 <= i < |s| ==> !CrLfAt(s, i)
  }

  /** Lines of `s` as `s.split('\r\n')`: separators are the non-overlapping `"\r\n"` found left to right. */
  function SplitLines(s: string): (lines: seq<string>)
    ensures |lines| >= 1
  {
    if |s| == 0 then [""]
    else if CrLfAt(s, 0) then [""] + SplitLines(s[2..])
    else
      var rest := SplitLines(s[1..]);
      [[s[0]] + rest[0]] + rest[1..]
  }

  /** The inverse of `SplitLines`: the lines glued back with `"\r\n"`. */
  function JoinLines(lines: seq<string>): string
    requires |lines| >= 1
  {
    if |lines| == 1 then lines[0] else lines[0] + "\r\n" + JoinLines(lines[1..])
  }

  /** Splitting into lines loses nothing. */
  lemma {:induction false} JoinSplitLines(s: string)
    ensures JoinLines(SplitLines(s)) == s
    decreases |s|
  {
    if |s| == 0 {
    } else if CrLfAt(s, 0) {
      JoinSplitLines(s[2..]);
      JoinLinesBlank(SplitLines(s[2..]));
      assert s == "\r\n" + s[2..];
    } else {
      JoinSplitLines(s[1..]);
      var rest := SplitLines(s[1..]);
      assert rest == [rest[0]] + rest[1..];
      JoinLinesExtend(s[0], rest[0], rest[1..]);
      assert s == [s[0]] + s[1..];
    }
  }

  /** An empty first line joins as a leading `"\r\n"`. */
  lemma JoinLinesBlank(more: seq<string>)
    requires |more| >= 1
    ensures JoinLines([""] + more) == "\r\n" + JoinLines(more)
  {
    assert ([""] + more)[1..] == more;
  }

  /** Prepending a character to the first line prepends it to the joined text. */
  lemma JoinLinesExtend(c: char, first: string, more: seq<string>)
    ensures JoinLines([[c] + first] + more) == [c] + JoinLines([first] + more)
  {
    if |more| > 0 {
      assert ([[c] + first] + more)[1..] == more;
      assert ([first] + more)[1..] == more;
      var tail := "\r\n" + JoinLines(more);
      assert ([c] + first) + tail == [c] + (first + tail);
    }
  }

  /** A line free of `"\r\n"` followed by `"\r\n"` splits off as the first line. */
  lemma {:induction false} SplitLinesPrefix(p: string, s: string)
    requires NoCrLf(p)
    ensures SplitLines(p + "\r\n" + s) == [p] + SplitLines(s)
  {
    var t := p + "\r\n" + s;
    if |p| == 0 {
      assert t == "\r\n" + s;
      assert CrLfAt(t, 0);
      assert t[2..] == s;
    } else {
      assert !CrLfAt(p, 0);
      assert !CrLfAt(t, 0) by {
        if |p| == 1 {
          assert t[1] == '\r';
        } else {
          assert t[1] == p[1];
        }
      }
      assert NoCrLf(p[1..]) by {
        forall i | 0 <= i < |p[1..]| ensures !CrLfAt(p[1..], i) {
          assert !CrLfAt(p, i + 1);
        }
      }
      SplitLinesPrefix(p[1..], s);
      assert t[1..] == p[1..] + "\r\n" + s;
      assert [p[0]] + p[1..] == p;
    }
  }

  /** A line free of `"\r\n"` is one line. */
  lemma {:induction false} SplitLinesNone(p: string)
    requires NoCrLf(p)
    ensures SplitLines(p) == [p]
  {
    if |p| > 0 {
      assert !CrLfAt(p, 0);
      assert NoCrLf(p[1..]) by {
        forall i | 0 <= i < |p[1..]| ensures !CrLfAt(p[1..], i) {
          assert !CrLfAt(p, i + 1);
        }
      }
      SplitLinesNone(p[1..]);
      assert [p[0]] + p[1..] == p;
    }
  }

  /** Lines free of `"\r\n"`, joined and split again, come back unchanged. */
  lemma {:induction false} SplitJoinLines(lines: seq<string>)
    requires |lines| >= 1
    requires forall k :: 0 <= k < |lines| ==> NoCrLf(lines[k])
    ensures SplitLines(JoinLines(lines)) == lines
  {
    if |lines| == 1 {
      SplitLinesNone(lines[0]);
    } else {
      SplitJoinLines(lines[1..]);
      SplitLinesPrefix(lines[0], JoinLines(lines[1..]));
      assert [lines[0]] + lines[1..] == lines;
    }
  }
}
