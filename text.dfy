/** The two Python 2 string primitives the zone editor applies to its
    textual inputs: `str.split(sep)` with a one-character separator, and
    `int(s)` on a byte string in base 10. */
module Text {

  import opened Wrappers

  /** Number of occurrences of `c` in `s`. */
  function Count(s: string, c: char): nat
  {
    if s == [] then 0 else (if s[0] == c then 1 else 0) + Count(s[1..], c)
  }

  /** Inverse of Split: the pieces glued back together with `sep` between
      consecutive pieces (Python's `sep.join(pieces)`). */
  function Join(pieces: seq<string>, sep: char): string
  {
    if |pieces| == 0 then []
    else if |pieces| == 1 then pieces[0]
    else pieces[0] + [sep] + Join(pieces[1..], sep)
  }

  /** Python's `s.split(sep)`: the maximal separator-free pieces, in order;
      there is always at least one (`"".split(";") == [""]`). */
  function Split(s: string, sep: char): (r: seq<string>)
    ensures |r| >= 1
    ensures forall i :: 0 <= i < |r| ==> sep !in r[i]
  {
    if s == [] then [[]]
    else
      var rest := Split(s[1..], sep);
      if s[0] == sep then [[]] + rest
      else
        var r := [[s[0]] + rest[0]] + rest[1..];
        assert forall i :: 1 <= i < |r| ==> r[i] == rest[i];
        r
  }

  /** There is one more piece than there are separators. */
  lemma {:induction false} SplitCount(s: string, sep: char)
    ensures |Split(s, sep)| == Count(s, sep) + 1
  {
    if s != [] {
      SplitCount(s[1..], sep);
    }
  }

  /** Gluing the pieces back together with the separator gives `s`. */
  lemma {:induction false} JoinSplit(s: string, sep: char)
    ensures Join(Split(s, sep), sep) == s
  {
    if s != [] {
      var rest := Split(s[1..], sep);
      JoinSplit(s[1..], sep);
      assert s == [s[0]] + s[1..];
      if s[0] != sep {
        var r := Split(s, sep);
        assert r[1..] == rest[1..];
        if |rest| > 1 {
          assert Join(rest, sep) == rest[0] + [sep] + Join(rest[1..], sep);
        }
      }
    }
  }

  /** Splitting what Join glued back gives the pieces again, provided no
      piece contains the separator. */
  lemma {:induction false} SplitJoin(pieces: seq<string>, sep: char)
    requires |pieces| >= 1
    requires forall i :: 0 <= i < |pieces| ==> sep !in pieces[i]
    ensures Split(Join(pieces, sep), sep) == pieces
  {
    if |pieces| == 1 {
      SplitNoSeparator(pieces[0], sep);
    } else {
      var tail := pieces[1..];
      SplitJoin(tail, sep);
      SplitAppend(pieces[0], Join(tail, sep), sep);
      assert [pieces[0]] + tail == pieces;
    }
  }

  /** A string without the separator splits into itself. */
  lemma {:induction false} SplitNoSeparator(s: string, sep: char)
    requires sep !in s
    ensures Split(s, sep) == [s]
  {
    if s != [] {
      SplitNoSeparator(s[1..], sep);
      assert [s[0]] + s[1..] == s;
    }
  }

  /** Splitting `a + [sep] + b` for a separator-free `a` puts `a` in front of
      the pieces of `b`. */
  lemma {:induction false} SplitAppend(a: string, b: string, sep: char)
    requires sep !in a
    ensures Split(a + [sep] + b, sep) == [a] + Split(b, sep)
  {
    if a == [] {
      assert a + [sep] + b == [sep] + b;
      assert ([sep] + b)[1..] == b;
    } else {
      var s := a + [sep] + b;
      assert s[1..] == a[1..] + [sep] + b;
      SplitAppend(a[1..], b, sep);
      assert [a[0]] + a[1..] == a;
    }
  }

  /** The characters C's `isspace` accepts in the "C" locale, which Python 2
      uses when it strips a string handed to `int()`. */
  predicate IsSpace(c: char)
  {
    c == ' ' || c == '\t' || c == '\n' || c == '\r' || c == '\U{0B}' || c == '\U{0C}'
  }

  predicate IsDigit(c: char)
  {
    '0' <= c <= '9'
  }

  predicate AllDigits(s: string)
  {
    forall i :: 0 <= i < |s| ==> IsDigit(s[i])
  }

  /** `s` without its leading white space. */
  function TrimStart(s: string): (r: string)
    ensures r == [] || !IsSpace(r[0])
  {
    if s != [] && IsSpace(s[0]) then TrimStart(s[1..]) else s
  }

  /** `s` without its trailing white space. */
  function TrimEnd(s: string): (r: string)
    ensures r == [] || !IsSpace(r[|r| - 1])
  {
    if s != [] && IsSpace(s[|s| - 1]) then TrimEnd(s[..|s| - 1]) else s
  }

  /** Decimal value of a string of ASCII digits, most significant first. */
  function DigitsValue(s: string): nat
    requires AllDigits(s)
  {
    if s == [] then 0
    else DigitsValue(s[..|s| - 1]) * 10 + (s[|s| - 1] as int - '0' as int)
  }

  /** Python 2's `int(s)` in base 10: optional white space, an optional sign,
      optional white space again (the sign is consumed before the digits are
      scanned, and the digit scanner skips white space of its own), at least
      one digit, and optional trailing white space. Anything else raises
      ValueError, modelled as None. */
  function ParseInt(s: string): (r: Option<int>)
    ensures s != [] && AllDigits(s) ==> r == Some(DigitsValue(s))
    ensures |s| >= 2 && s[0] == '-' && AllDigits(s[1..]) ==> r == Some(-(DigitsValue(s[1..]) as int))
    ensures AllSpace(s) ==> r.None?
  {
    TrimNumeral(s);
    ParseSigned(TrimEnd(TrimStart(s)))
  }

  /** A trimmed numeral: an optional sign, then digits. */
  function ParseSigned(t: string): Option<int>
  {
    if t != [] && t[0] == '-' then
      match ParseDigits(TrimStart(t[1..]))
      case Some(v) => Some(-(v as int))
      case None => None
    else if t != [] && t[0] == '+' then
      match ParseDigits(TrimStart(t[1..]))
      case Some(v) => Some(v)
      case None => None
    else
      match ParseDigits(t)
      case Some(v) => Some(v)
      case None => None
  }

  /** A non-empty run of digits and its value. */
  function ParseDigits(b: string): Option<nat>
  {
    if b != [] && AllDigits(b) then Some(DigitsValue(b)) else None
  }

  /** Decimal rendering of a natural number, without leading zeros. */
  function ShowNat(n: nat): (r: string)
    ensures r != [] && AllDigits(r)
  {
    (if n < 10 then [] else ShowNat(n / 10)) + [('0' as int + n % 10) as char]
  }

  /** Decimal rendering of an integer, as Python's `str(n)`. */
  function ShowInt(n: int): (r: string)
    ensures r != []
  {
    if n < 0 then "-" + ShowNat(-n) else ShowNat(n)
  }

  lemma {:induction false} DigitsValueShowNat(n: nat)
    ensures DigitsValue(ShowNat(n)) == n
  {
    var s := ShowNat(n);
    if n < 10 {
      assert s[..|s| - 1] == [];
    } else {
      assert s[..|s| - 1] == ShowNat(n / 10);
      DigitsValueShowNat(n / 10);
    }
  }

  /** `int(str(n)) == n`: the parser reads back every rendered integer. */
  lemma {:induction false} ParseIntShowInt(n: int)
    ensures ParseInt(ShowInt(n)) == Some(n)
  {
    var s := ShowInt(n);
    var m: nat := if n < 0 then -n else n;
    var digits := ShowNat(m);
    assert IsDigit(digits[0]);
    TrimStartUnchanged(digits);
    if n < 0 {
      assert s == "-" + digits;
      assert s[1..] == digits;
    } else {
      assert s == digits;
    }
    assert s[|s| - 1] == digits[|digits| - 1];
    assert IsDigit(digits[|digits| - 1]);
    TrimStartUnchanged(s);
    TrimEndUnchanged(s);
    DigitsValueShowNat(m);
  }

  /** Trimming leaves a bare or negated run of digits as it is, and
      empties a text of white space only. */
  lemma TrimNumeral(s: string)
    ensures s != [] && AllDigits(s) ==> TrimEnd(TrimStart(s)) == s
    ensures |s| >= 2 && s[0] == '-' && AllDigits(s[1..]) ==>
      TrimEnd(TrimStart(s)) == s && TrimStart(s[1..]) == s[1..]
    ensures AllSpace(s) ==> TrimStart(s) == []
  {
    if s != [] && AllDigits(s) {
      TrimStartUnchanged(s);
      TrimEndUnchanged(s);
    }
    if |s| >= 2 && s[0] == '-' && AllDigits(s[1..]) {
      assert IsDigit(s[1..][|s| - 2]);
      TrimStartUnchanged(s);
      TrimEndUnchanged(s);
      TrimStartUnchanged(s[1..]);
    }
    if AllSpace(s) {
      assert s + [] == s;
      TrimStartPrefix(s, []);
    }
  }

  lemma TrimStartUnchanged(s: string)
    requires s == [] || !IsSpace(s[0])
    ensures TrimStart(s) == s
  {
  }

  lemma TrimEndUnchanged(s: string)
    requires s == [] || !IsSpace(s[|s| - 1])
    ensures TrimEnd(s) == s
  {
  }

  /** `w` is white space only. */
  predicate AllSpace(w: string)
  {
    forall i :: 0 <= i < |w| ==> IsSpace(w[i])
  }

  /** White space around a number does not change what `int()` reads. */
  lemma ParseIntIgnoresPadding(w1: string, s: string, w2: string)
    requires AllSpace(w1) && AllSpace(w2)
    ensures ParseInt(w1 + s + w2) == ParseInt(s)
  {
    assert w1 + s + w2 == w1 + (s + w2);
    TrimStartPrefix(w1, s + w2);
    TrimStartAppend(s, w2);
    if TrimStart(s) != [] {
      TrimEndSuffix(TrimStart(s), w2);
    }
  }

  /** Leading white space is trimmed away. */
  lemma {:induction false} TrimStartPrefix(w: string, s: string)
    requires AllSpace(w)
    ensures TrimStart(w + s) == TrimStart(s)
  {
    if w != [] {
      assert (w + s)[0] == w[0] && IsSpace(w[0]);
      assert (w + s)[1..] == w[1..] + s;
      assert AllSpace(w[1..]) by {
        forall i | 0 <= i < |w[1..]| ensures IsSpace(w[1..][i]) {
          assert w[1..][i] == w[i + 1];
        }
      }
      assert TrimStart(w + s) == TrimStart(w[1..] + s);
      TrimStartPrefix(w[1..], s);
    } else {
      assert w + s == s;
    }
  }

  /** Trimming the front of `s + w` for a white-space tail `w`. */
  lemma {:induction false} TrimStartAppend(s: string, w: string)
    requires AllSpace(w)
    ensures TrimStart(s + w) == (if TrimStart(s) == [] then [] else TrimStart(s) + w)
  {
    if s == [] {
      assert s + w == w && w + [] == w;
      TrimStartPrefix(w, []);
      assert TrimStart(w) == [];
    } else if IsSpace(s[0]) {
      assert (s + w)[1..] == s[1..] + w;
      TrimStartAppend(s[1..], w);
    }
  }

  /** Trailing white space is trimmed away. */
  lemma {:induction false} TrimEndSuffix(t: string, w: string)
    requires AllSpace(w)
    ensures TrimEnd(t + w) == TrimEnd(t)
  {
    if w != [] {
      var u := w[..|w| - 1];
      assert (t + w)[..|t + w| - 1] == t + u;
      assert (t + w)[|t + w| - 1] == w[|w| - 1];
      assert AllSpace(u) by {
        forall i | 0 <= i < |u| ensures IsSpace(u[i]) {
          assert u[i] == w[i];
        }
      }
      TrimEndSuffix(t, u);
    } else {
      assert t + w == t;
    }
  }
}
