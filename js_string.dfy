/**
 * The JavaScript string and array built-ins the application uses on participant
 * lists: `trim`, `split(",")`, `join(",")`, `map(e => e.trim())` and
 * `filter(Boolean)`.
 */
module JsString {

  /** The code points `String.prototype.trim` removes: ECMAScript WhiteSpace and LineTerminator. */
  predicate IsSpace(c: char) {
    || c == '\t' || c == '\n' || c == '\U{000B}' || c == '\U{000C}' || c == '\r' || c == ' '
    || c == '\U{00A0}' || c == '\U{1680}' || ('\U{2000}' <= c <= '\U{200A}')
    || c == '\U{2028}' || c == '\U{2029}' || c == '\U{202F}' || c == '\U{205F}'
    || c == '\U{3000}' || c == '\U{FEFF}'
  }

  predicate AllSpace(s: string) {
    forall i :: 0 <= i < |s| ==> IsSpace(s[i])
  }

  /** No whitespace at either end. */
  predicate Trimmed(s: string) {
    s == [] || (!IsSpace(s[0]) && !IsSpace(s[|s| - 1]))
  }

  /** Drops the leading whitespace: the result is the suffix after a run of spaces. */
  function TrimStart(s: string): (r: string)
    ensures |r| <= |s| && r == s[|s| - |r|..]
    ensures AllSpace(s[..|s| - |r|])
    ensures r == [] || !IsSpace(r[0])
  {
    if s != [] && IsSpace(s[0]) then TrimStart(s[1..]) else s
  }

  /** Drops the trailing whitespace: the result is the prefix before a run of spaces. */
  function TrimEnd(s: string): (r: string)
    ensures |r| <= |s| && r == s[..|r|]
    ensures AllSpace(s[|r|..])
    ensures r == [] || !IsSpace(r[|r| - 1])
  {
    if s != [] && IsSpace(s[|s| - 1]) then TrimEnd(s[..|s| - 1]) else s
  }

  /** `s.trim()`: whitespace dropped at both ends. */
  function Trim(s: string): (r: string)
    ensures Trimmed(r)
    ensures |r| <= |s|
  {
    TrimEnd(TrimStart(s))
  }

  /** Trimming keeps a contiguous part of the string, so it adds no character. */
  lemma TrimInside(s: string, c: char)
    requires c in Trim(s)
    ensures c in s
  {
    var t := TrimStart(s);
    var r := TrimEnd(t);
    var i :| 0 <= i < |r| && r[i] == c;
    assert r[i] == t[i] == s[|s| - |t| + i];
  }

  /** Trimming gives the empty string exactly when the string is all whitespace. */
  lemma TrimEmpty(s: string)
    ensures Trim(s) == [] <==> AllSpace(s)
  {
    var t := TrimStart(s);
    var r := TrimEnd(t);
    if t == [] {
      assert s[..|s|] == s;
    }
  }

  /** Trimming a string with no whitespace at its ends changes nothing. */
  lemma TrimOfTrimmed(s: string)
    requires Trimmed(s)
    ensures Trim(s) == s
  {
  }

  /** No comma anywhere in the text. */
  predicate CommaFree(s: string) {
    ',' !in s
  }

  /** `s.split(",")`: the text between consecutive commas, in order; `""` gives `[""]`. */
  function Split(s: string): (pieces: seq<string>)
    ensures |pieces| > 0
    ensures forall i :: 0 <= i < |pieces| ==> CommaFree(pieces[i])
  {
    if s == [] then [""]
    else
      var rest := Split(s[1..]);
      if s[0] == ',' then [""] + rest
      else [[s[0]] + rest[0]] + rest[1..]
  }

  /** A split has one piece more than the string has commas. */
  lemma {:induction false} SplitCount(s: string)
    ensures |Split(s)| == multiset(s)[','] + 1
  {
    if s != [] {
      SplitCount(s[1..]);
      assert s == [s[0]] + s[1..];
    }
  }

  /**
   * `xs.join(",")`: the pieces with one comma between neighbours. The first piece
   * starts the result, and comma-free pieces give one comma fewer than pieces.
   */
  function Join(xs: seq<string>): (s: string)
    ensures |xs| > 0 ==> xs[0] <= s
    ensures (forall i :: 0 <= i < |xs| ==> CommaFree(xs[i])) ==> multiset(s)[','] == if xs == [] then 0 else |xs| - 1
  {
    if |xs| == 0 then ""
    else if |xs| == 1 then xs[0]
    else
      assert forall i :: 0 <= i < |xs| - 1 ==> xs[1..][i] == xs[i + 1];
      xs[0] + "," + Join(xs[1..])
  }

  /** Text put before the first piece of a join comes out before the whole join. */
  lemma {:induction false} JoinPrefixFirst(c: string, xs: seq<string>)
    requires |xs| > 0
    ensures Join([c + xs[0]] + xs[1..]) == c + Join(xs)
  {
    var ys := [c + xs[0]] + xs[1..];
    if |xs| > 1 {
      assert ys[1..] == xs[1..];
      calc {
        Join(ys);
        ys[0] + "," + Join(ys[1..]);
        (c + xs[0]) + "," + Join(xs[1..]);
        c + (xs[0] + "," + Join(xs[1..]));
      }
    }
  }

  /** Joining the pieces of a split gives back the string. */
  lemma {:induction false} JoinOfSplit(s: string)
    ensures Join(Split(s)) == s
  {
    if s != [] {
      JoinOfSplit(s[1..]);
      var rest := Split(s[1..]);
      if s[0] == ',' {
        assert ([""] + rest)[1..] == rest;
        assert s == "," + s[1..];
      } else {
        JoinPrefixFirst([s[0]], rest);
        assert s == [s[0]] + s[1..];
      }
    }
  }

  /** A string without commas splits into itself alone. */
  lemma {:induction false} SplitOfPiece(a: string)
    requires CommaFree(a)
    ensures Split(a) == [a]
  {
    if a != [] {
      assert CommaFree(a[1..]) by {
        forall i | 0 <= i < |a[1..]| ensures a[1..][i] != ',' {
          assert a[1..][i] == a[i + 1];
        }
      }
      SplitOfPiece(a[1..]);
      assert a == [a[0]] + a[1..];
    }
  }

  /** Splitting a character followed by text: a comma starts a new piece, any other character joins the first one. */
  lemma SplitCons(c: char, t: string)
    ensures Split([c] + t) == if c == ',' then [""] + Split(t) else [[c] + Split(t)[0]] + Split(t)[1..]
  {
    var s := [c] + t;
    assert s[0] == c && s[1..] == t;
  }

  /** Splitting text made of two parts and a comma between them gives the pieces of each part, in order. */
  lemma {:induction false} SplitAppend(a: string, b: string)
    ensures Split(a + "," + b) == Split(a) + Split(b)
  {
    if a == [] {
      assert a + "," + b == [','] + b;
      SplitCons(',', b);
    } else {
      SplitAppend(a[1..], b);
      SplitAppendStep(a[0], a[1..], b);
      assert a == [a[0]] + a[1..];
    }
  }

  /** Putting a character in front of the first of two comma-joined parts. */
  lemma ConsAppend(c: char, a: string, b: string)
    ensures [c] + a + "," + b == [c] + (a + "," + b)
  {
  }

  /** Extending the first piece of a concatenation extends the first piece of its first part. */
  lemma ConsFirstPiece(c: char, ra: seq<string>, rb: seq<string>)
    requires |ra| > 0
    ensures [[c] + (ra + rb)[0]] + (ra + rb)[1..] == ([[c] + ra[0]] + ra[1..]) + rb
  {
    assert (ra + rb)[0] == ra[0] && (ra + rb)[1..] == ra[1..] + rb;
  }

  /** The inductive step of SplitAppend: putting one character in front of the first part. */
  lemma SplitAppendStep(c: char, a: string, b: string)
    requires Split(a + "," + b) == Split(a) + Split(b)
    ensures Split([c] + a + "," + b) == Split([c] + a) + Split(b)
  {
    ConsAppend(c, a, b);
    SplitCons(c, a + "," + b);
    SplitCons(c, a);
    if c == ',' {
      assert [""] + (Split(a) + Split(b)) == ([""] + Split(a)) + Split(b);
    } else {
      ConsFirstPiece(c, Split(a), Split(b));
    }
  }

  /** Splitting a join of comma-free pieces gives the pieces back. */
  lemma {:induction false} SplitOfJoin(xs: seq<string>)
    requires |xs| > 0
    requires forall i :: 0 <= i < |xs| ==> CommaFree(xs[i])
    ensures Split(Join(xs)) == xs
  {
    if |xs| == 1 {
      SplitOfPiece(xs[0]);
    } else {
      SplitOfJoin(xs[1..]);
      SplitOfPiece(xs[0]);
      SplitAppend(xs[0], Join(xs[1..]));
      assert xs == [xs[0]] + xs[1..];
    }
  }

  /** The join of pieces is empty exactly when there are none or only one empty piece. */
  lemma {:induction false} JoinEmpty(xs: seq<string>)
    ensures Join(xs) == "" <==> |xs| == 0 || (|xs| == 1 && xs[0] == "")
  {
    if |xs| > 1 {
      assert |Join(xs)| >= 1;
    }
  }

  /** `xs.map(e => e.trim())` */
  function TrimEach(xs: seq<string>): (ys: seq<string>)
    ensures |ys| == |xs|
    ensures forall i :: 0 <= i < |xs| ==> ys[i] == Trim(xs[i])
  {
    if xs == [] then [] else [Trim(xs[0])] + TrimEach(xs[1..])
  }

  /** `xs.filter(Boolean)` on strings: the non-empty ones, in order, duplicates kept. */
  function DropEmpty(xs: seq<string>): (ys: seq<string>)
    ensures |ys| <= |xs|
    ensures forall i :: 0 <= i < |ys| ==> ys[i] != "" && ys[i] in xs
    ensures ys == [] <==> forall i :: 0 <= i < |xs| ==> xs[i] == ""
    ensures (forall i :: 0 <= i < |xs| ==> xs[i] != "") ==> ys == xs
  {
    if xs == [] then []
    else if xs[0] == "" then DropEmpty(xs[1..])
    else [xs[0]] + DropEmpty(xs[1..])
  }

  /** Filtering keeps every non-empty string as often as it occurred. */
  lemma {:induction false} DropEmptyKeepsRepeats(xs: seq<string>, e: string)
    requires e != ""
    ensures multiset(DropEmpty(xs))[e] == multiset(xs)[e]
  {
    if xs != [] {
      DropEmptyKeepsRepeats(xs[1..], e);
      assert xs == [xs[0]] + xs[1..];
    }
  }

  /** Filtering a concatenation filters each part and keeps them in order. */
  lemma {:induction false} DropEmptyAppend(xs: seq<string>, ys: seq<string>)
    ensures DropEmpty(xs + ys) == DropEmpty(xs) + DropEmpty(ys)
  {
    if xs == [] {
      assert xs + ys == ys;
    } else {
      var zs := xs + ys;
      assert zs[0] == xs[0] && zs[1..] == xs[1..] + ys;
      DropEmptyAppend(xs[1..], ys);
      if xs[0] == "" {
        calc {
          DropEmpty(zs);
          DropEmpty(xs[1..] + ys);
          DropEmpty(xs[1..]) + DropEmpty(ys);
        }
      } else {
        calc {
          DropEmpty(zs);
          [xs[0]] + DropEmpty(xs[1..] + ys);
          [xs[0]] + (DropEmpty(xs[1..]) + DropEmpty(ys));
          ([xs[0]] + DropEmpty(xs[1..])) + DropEmpty(ys);
        }
      }
    }
  }

}
