/** The slice of Python's value semantics the feature pipeline depends on:
    a raised exception is reported as `None`, features and combination keys
    are strings or tuples of strings, and strings are split with
    `str.split(sep)` and with `str.split()` (runs of whitespace). */
module Py {

  datatype Option<T> = None | Some(value: T)

  /** A feature or a combination key as the pipeline hands it around: a
      (possibly comma-joined) string, or a tuple of feature names. Python's
      `==` between a string and a tuple is always false, as here. */
  datatype Value = Str(s: string) | Tup(items: seq<string>)

  /** Number of occurrences of `x` in `s`. */
  function Count<T(==)>(s: seq<T>, x: T): nat
  {
    if |s| == 0 then 0 else (if s[0] == x then 1 else 0) + Count(s[1..], x)
  }

  /** `s.split(sep)`: cut at every occurrence of `sep`; empty pieces are kept,
      so the empty string yields one empty piece. */
  function Split(s: string, sep: char): (r: seq<string>)
    ensures |r| == Count(s, sep) + 1
    ensures forall i :: 0 <= i < |r| ==> sep !in r[i]
    decreases |s|
  {
    if |s| == 0 then [""]
    else
      var rest := Split(s[1..], sep);
      if s[0] == sep then [""] + rest else [[s[0]] + rest[0]] + rest[1..]
  }

  /** `sep.join(parts)`. */
  function Join(parts: seq<string>, sep: char): string
  {
    if |parts| == 0 then ""
    else if |parts| == 1 then parts[0]
    else parts[0] + [sep] + Join(parts[1..], sep)
  }

  /** Splitting and joining back on the same separator gives the string back. */
  lemma {:induction false} JoinSplit(s: string, sep: char)
    ensures Join(Split(s, sep), sep) == s
    decreases |s|
  {
    if |s| > 0 {
      JoinSplit(s[1..], sep);
      var rest := Split(s[1..], sep);
      if s[0] == sep {
        assert Split(s, sep) == [""] + rest;
        assert ([""] + rest)[1..] == rest;
        assert s == [sep] + s[1..];
      } else {
        var r := Split(s, sep);
        assert r == [[s[0]] + rest[0]] + rest[1..];
        if |rest| == 1 {
          assert s == [s[0]] + rest[0];
        } else {
          assert r[1..] == rest[1..];
          assert Join(rest, sep) == rest[0] + [sep] + Join(rest[1..], sep);
          assert s == [s[0]] + s[1..];
        }
      }
    }
  }

  /** A separator between two texts splits them apart and nothing else
      changes: `(x + sep + y).split(sep) == x.split(sep) + y.split(sep)`. */
  lemma {:induction false} SplitAround(x: string, y: string, sep: char)
    ensures Split(x + [sep] + y, sep) == Split(x, sep) + Split(y, sep)
    decreases |x|
  {
    if |x| == 0 {
      assert x + [sep] + y == [sep] + y;
      SplitUnfold([sep] + y, sep);
      assert ([sep] + y)[1..] == y;
    } else {
      SplitAround(x[1..], y, sep);
      SplitAroundStep(x, y, sep);
    }
  }

  /** The inductive step of `SplitAround`: one more leading character. */
  lemma SplitAroundStep(x: string, y: string, sep: char)
    requires |x| > 0
    requires Split(x[1..] + [sep] + y, sep) == Split(x[1..], sep) + Split(y, sep)
    ensures Split(x + [sep] + y, sep) == Split(x, sep) + Split(y, sep)
  {
    var s := x + [sep] + y;
    TailOfJoined(x, y, sep);
    SplitUnfold(s, sep);
    SplitUnfold(x, sep);
    ConsPieceAppend(x[0], sep, Split(x[1..], sep), Split(y, sep), Split(s, sep), Split(x, sep));
  }

  /** Adding a leading character to the pieces `a`, then appending `b`, is
      adding it to `a + b`. */
  lemma ConsPieceAppend(c: char, sep: char, a: seq<string>, b: seq<string>, ab: seq<string>, ca: seq<string>)
    requires |a| > 0
    requires ab == if c == sep then [""] + (a + b) else [[c] + (a + b)[0]] + (a + b)[1..]
    requires ca == if c == sep then [""] + a else [[c] + a[0]] + a[1..]
    ensures ab == ca + b
  {
    if c != sep {
      FirstPieceAppend([c], a, b);
    }
  }

  lemma TailOfJoined(x: string, y: string, sep: char)
    requires |x| > 0
    ensures (x + [sep] + y)[0] == x[0]
    ensures (x + [sep] + y)[1..] == x[1..] + [sep] + y
  {
  }

  /** One step of `Split`'s definition, for a non-empty string. */
  lemma SplitUnfold(s: string, sep: char)
    requires |s| > 0
    ensures var rest := Split(s[1..], sep);
      Split(s, sep) == if s[0] == sep then [""] + rest else [[s[0]] + rest[0]] + rest[1..]
  {
  }

  /** Prefixing the first piece commutes with appending further pieces. */
  lemma FirstPieceAppend(p: string, a: seq<string>, b: seq<string>)
    requires |a| > 0
    ensures [p + (a + b)[0]] + (a + b)[1..] == ([p + a[0]] + a[1..]) + b
  {
    assert (a + b)[0] == a[0];
    assert (a + b)[1..] == a[1..] + b;
  }

  /** The characters `str.split()` treats as whitespace (Python's
      `str.isspace` set). */
  predicate IsSpace(c: char)
  {
    var n := c as int;
    (9 <= n <= 13) || (0x1C <= n <= 0x1F) || n == 0x20 || n == 0x85 || n == 0xA0
    || n == 0x1680 || (0x2000 <= n <= 0x200A) || n == 0x2028 || n == 0x2029
    || n == 0x202F || n == 0x205F || n == 0x3000
  }

  /** The maximal run of non-whitespace characters at the front of `s`. */
  function TakeWord(s: string): (r: string)
    ensures |r| <= |s| && r == s[..|r|]
    ensures forall i :: 0 <= i < |r| ==> !IsSpace(r[i])
    ensures |r| == |s| || IsSpace(s[|r|])
  {
    if |s| == 0 || IsSpace(s[0]) then [] else [s[0]] + TakeWord(s[1..])
  }

  /** `s.split()[0]`: the first whitespace-separated word, or `None` when
      there is none (the subscript raises `IndexError`). */
  function FirstWord(s: string): (r: Option<string>)
    ensures r.None? <==> forall i :: 0 <= i < |s| ==> IsSpace(s[i])
    ensures r.Some? ==> |r.value| > 0 && forall i :: 0 <= i < |r.value| ==> !IsSpace(r.value[i])
  {
    if |s| == 0 then None
    else if IsSpace(s[0]) then FirstWord(s[1..])
    else Some(TakeWord(s))
  }

  lemma {:induction false} TakeWordOf(w: string, rest: string)
    requires forall i :: 0 <= i < |w| ==> !IsSpace(w[i])
    requires |rest| == 0 || IsSpace(rest[0])
    ensures TakeWord(w + rest) == w
  {
    if |w| > 0 {
      assert (w + rest)[1..] == w[1..] + rest;
      TakeWordOf(w[1..], rest);
    } else {
      assert w + rest == rest;
    }
  }

  /** Leading whitespace is skipped and the word ends at the next whitespace
      or at the end of the string. */
  lemma {:induction false} FirstWordOf(lead: string, w: string, rest: string)
    requires forall i :: 0 <= i < |lead| ==> IsSpace(lead[i])
    requires |w| > 0 && forall i :: 0 <= i < |w| ==> !IsSpace(w[i])
    requires |rest| == 0 || IsSpace(rest[0])
    ensures FirstWord(lead + w + rest) == Some(w)
  {
    if |lead| > 0 {
      assert (lead + w + rest)[1..] == lead[1..] + w + rest;
      FirstWordOf(lead[1..], w, rest);
    } else {
      assert lead + w + rest == w + rest;
      TakeWordOf(w, rest);
    }
  }
}
