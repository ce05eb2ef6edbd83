/** JavaScript values and the few built-in string and array operations the
    services rely on: truthiness and `||`, `String.prototype.trim`,
    `String.prototype.split` on a one-character separator, `Array.prototype.join`,
    `Number(...)` on decimal integers, and the decimal rendering of a
    non-negative integer inside a template literal. */
module Js {

  datatype Option<+T> = None | Some(value: T)

  /** The outcome of a call that may throw: the thrown error's message on failure. */
  datatype Result<+T> = Ok(value: T) | Err(message: string)

  /** The values that flow between the services and the database driver.
      Numbers are integers (no NaN, no fractions); `Date` is a Date object,
      identified by its epoch milliseconds. */
  datatype Value = Undefined | Null | Bool(b: bool) | Num(n: int) | Str(s: string) | Date(ms: int)

  /** JavaScript's ToBoolean: `undefined`, `null`, `false`, `0` and `""` are falsy;
      every object (a Date included) is truthy. */
  predicate Truthy(v: Value) {
    match v
    case Undefined => false
    case Null => false
    case Bool(b) => b
    case Num(n) => n != 0
    case Str(s) => s != ""
    case Date(_) => true
  }

  /** `a || b` */
  function Or(a: Value, b: Value): Value {
    if Truthy(a) then a else b
  }

  /** `a === b` for the values above (two Date objects are never the same object
      unless they are the same value here; the services never compare dates). */
  predicate StrictEquals(a: Value, b: Value) {
    a == b
  }

  /** ECMAScript's ToNumeric on the values above, with `None` for NaN:
      `undefined` is NaN, `null` is 0, a boolean is 0 or 1, a string is read
      by `Number`, and a Date by its time value. */
  function ToNumeric(v: Value): Option<int> {
    match v
    case Undefined => None
    case Null => Some(0)
    case Bool(b) => Some(if b then 1 else 0)
    case Num(n) => Some(n)
    case Str(s) => ToNumber(s)
    case Date(ms) => Some(ms)
  }

  /** The result of `x > 0` for a value read back from the database: the
      comparison converts `x` to a number, and NaN compares false. */
  predicate GreaterThanZero(v: Value): (r: bool)
    ensures r <==> ToNumeric(v).Some? && ToNumeric(v).value > 0
    ensures v.Null? || v.Undefined? ==> !r
  {
    match v
    case Num(n) => n > 0
    case Bool(b) => b
    case Str(s) => var x := ToNumber(s); x.Some? && x.value > 0
    case Date(ms) => ms > 0
    case _ => false
  }

  // ---------------------------------------------------------------------------
  // Decimal digits

  predicate IsDigit(c: char) {
    '0' <= c <= '9'
  }

  predicate AllDigits(s: string) {
    forall k :: 0 <= k < |s| ==> IsDigit(s[k])
  }

  function DigitChar(d: nat): (c: char)
    requires d < 10
  {
    ('0' as int + d) as char
  }

  /** The value of a non-empty run of decimal digits, read left to right. */
  function DecimalValue(s: string): nat
    requires AllDigits(s)
  {
    if s == [] then 0
    else DecimalValue(s[..|s| - 1]) * 10 + (s[|s| - 1] as int - '0' as int)
  }

  /** `${n}` for a non-negative integer: its decimal digits, most significant first. */
  function NatToString(n: nat): (s: string)
    ensures |s| > 0 && AllDigits(s)
    ensures s[0] == '0' ==> n == 0
    decreases n
  {
    if n < 10 then [DigitChar(n)]
    else NatToString(n / 10) + [DigitChar(n % 10)]
  }

  /** Reading back the digits `${n}` writes gives `n`. */
  lemma {:induction false} NatToStringRoundTrip(n: nat)
    ensures DecimalValue(NatToString(n)) == n
    decreases n
  {
    var s := NatToString(n);
    if n >= 10 {
      NatToStringRoundTrip(n / 10);
      assert s[..|s| - 1] == NatToString(n / 10);
    }
  }

  /** Distinct numbers are rendered as distinct strings. */
  lemma NatToStringInjective(m: nat, n: nat)
    requires NatToString(m) == NatToString(n)
    ensures m == n
  {
    NatToStringRoundTrip(m);
    NatToStringRoundTrip(n);
  }

  // ---------------------------------------------------------------------------
  // trim

  /** The characters `String.prototype.trim` removes: WhiteSpace and LineTerminator
      of ECMAScript (tab, line feed, vertical tab, form feed, carriage return,
      space, no-break space, the Unicode space separators, line and paragraph
      separators, byte order mark). */
  predicate IsWhiteSpace(c: char) {
    || c == ' '
    || '\t' <= c <= '\r'
    || c == '\U{00A0}'
    || c == '\U{1680}'
    || '\U{2000}' <= c <= '\U{200A}'
    || c == '\U{2028}' || c == '\U{2029}'
    || c == '\U{202F}' || c == '\U{205F}'
    || c == '\U{3000}' || c == '\U{FEFF}'
  }

  /** Drops leading white space. */
  function TrimStart(s: string): (r: string)
    ensures |r| <= |s|
  {
    if s != [] && IsWhiteSpace(s[0]) then TrimStart(s[1..]) else s
  }

  /** Drops trailing white space. */
  function TrimEnd(s: string): (r: string)
    ensures |r| <= |s|
  {
    if s != [] && IsWhiteSpace(s[|s| - 1]) then TrimEnd(s[..|s| - 1]) else s
  }

  /** `TrimStart` gives a suffix of `s`, everything it drops is white space,
      and what it keeps does not start with white space. */
  lemma {:induction false} TrimStartSpec(s: string)
    ensures var r := TrimStart(s);
      && r == s[|s| - |r|..]
      && (forall k :: 0 <= k < |s| - |r| ==> IsWhiteSpace(s[k]))
      && (r != [] ==> !IsWhiteSpace(r[0]))
  {
    if s != [] && IsWhiteSpace(s[0]) {
      TrimStartSpec(s[1..]);
      var r := TrimStart(s);
      forall k | 0 <= k < |s| - |r| ensures IsWhiteSpace(s[k]) {
        if k > 0 {
          assert s[k] == s[1..][k - 1];
        }
      }
    }
  }

  /** `TrimEnd` gives a prefix of `s`, everything it drops is white space,
      and what it keeps does not end with white space. */
  lemma {:induction false} TrimEndSpec(s: string)
    ensures var r := TrimEnd(s);
      && r == s[..|r|]
      && (forall k :: |r| <= k < |s| ==> IsWhiteSpace(s[k]))
      && (r != [] ==> !IsWhiteSpace(r[|r| - 1]))
  {
    if s != [] && IsWhiteSpace(s[|s| - 1]) {
      TrimEndSpec(s[..|s| - 1]);
      var r := TrimEnd(s);
      forall k | |r| <= k < |s| ensures IsWhiteSpace(s[k]) {
        if k < |s| - 1 {
          assert s[k] == s[..|s| - 1][k];
        }
      }
    }
  }

  /** `s.trim()` */
  function Trim(s: string): string {
    TrimEnd(TrimStart(s))
  }

  /** `trim` keeps a contiguous run of `s` that starts after the leading white
      space, removes only white space around it, and leaves neither end on
      white space. */
  lemma TrimKeepsCore(s: string)
    ensures var i, t := |s| - |TrimStart(s)|, Trim(s);
      && i + |t| <= |s| && t == s[i..i + |t|]
      && (forall k :: 0 <= k < i ==> IsWhiteSpace(s[k]))
      && (forall k :: i + |t| <= k < |s| ==> IsWhiteSpace(s[k]))
      && (t != [] ==> !IsWhiteSpace(t[0]) && !IsWhiteSpace(t[|t| - 1]))
  {
    var u := TrimStart(s);
    var t := TrimEnd(u);
    var i := |s| - |u|;
    TrimStartSpec(s);
    TrimEndSpec(u);
    assert t == s[i..i + |t|];
    forall k | i + |t| <= k < |s| ensures IsWhiteSpace(s[k]) {
      assert s[k] == u[k - i];
    }
  }

  /** A string without white space at either end is left unchanged by `trim`. */
  lemma TrimIdentity(s: string)
    requires s == [] || (!IsWhiteSpace(s[0]) && !IsWhiteSpace(s[|s| - 1]))
    ensures Trim(s) == s
  {
  }

  // ---------------------------------------------------------------------------
  // Number(...)

  /** `Number(s)` for the strings this model admits: after trimming, the empty
      string is 0 and an optional sign followed by decimal digits is that
      integer; everything else is `None`, standing for NaN. Unlike JavaScript,
      this also reads fractions, exponents, `0x`/`0o`/`0b` literals and
      `Infinity` as NaN: `Number("0x10")` is 16, but `ToNumber("0x10")` is `None`. */
  function ToNumber(s: string): Option<int> {
    var t := Trim(s);
    if t == "" then Some(0)
    else if t[0] == '-' && |t| > 1 && AllDigits(t[1..]) then Some(-(DecimalValue(t[1..]) as int))
    else if t[0] == '+' && |t| > 1 && AllDigits(t[1..]) then Some(DecimalValue(t[1..]))
    else if AllDigits(t) then Some(DecimalValue(t))
    else None
  }

  /** `Number(String(n)) === n` for a non-negative integer. */
  lemma ToNumberOfNatToString(n: nat)
    ensures ToNumber(NatToString(n)) == Some(n)
  {
    var s := NatToString(n);
    assert !IsWhiteSpace(s[0]) && !IsWhiteSpace(s[|s| - 1]);
    TrimIdentity(s);
    NatToStringRoundTrip(n);
  }

  // ---------------------------------------------------------------------------
  // split and join

  /** `items.join(sep)`: the items separated by `sep`, with no separator before
      the first or after the last; `[].join(sep)` is `""`. */
  function Join(items: seq<string>, sep: string): string {
    if |items| == 0 then ""
    else if |items| == 1 then items[0]
    else Join(items[..|items| - 1], sep) + sep + items[|items| - 1]
  }

  /** `s.split(c)` for a one-character separator: the pieces between
      occurrences of `c`, in order; `"".split(c)` is `[""]`. */
  function Split(s: string, c: char): (parts: seq<string>)
    ensures |parts| >= 1
  {
    if s == [] then [""]
    else
      var init := Split(s[..|s| - 1], c);
      if s[|s| - 1] == c then init + [""]
      else init[..|init| - 1] + [init[|init| - 1] + [s[|s| - 1]]]
  }

  /** The step of `Split` at a last character that is not the separator:
      it extends the last piece. */
  lemma SplitExtend(s: string, c: char, x: char)
    requires x != c
    ensures var p := Split(s, c); var n := |p|;
      Split(s + [x], c) == p[..n - 1] + [p[n - 1] + [x]]
  {
    assert (s + [x])[..|s|] == s;
  }

  /** The step of `Split` at a separator: it opens a new, empty piece. */
  lemma SplitOpen(s: string, c: char)
    ensures Split(s + [c], c) == Split(s, c) + [""]
  {
    assert (s + [c])[..|s|] == s;
  }

  /** Joining the pieces of a split with the separator gives back the string. */
  lemma {:induction false} SplitJoin(s: string, c: char)
    ensures Join(Split(s, c), [c]) == s
  {
    if s != [] {
      var pre, x := s[..|s| - 1], s[|s| - 1];
      assert s == pre + [x];
      var init := Split(pre, c);
      var n := |init|;
      SplitJoin(pre, c);
      if x == c {
        SplitOpen(pre, c);
        var parts := init + [""];
        assert parts[..|parts| - 1] == init;
        assert Join(parts, [c]) == Join(init, [c]) + [c] + "";
      } else {
        SplitExtend(pre, c, x);
        var last := init[n - 1] + [x];
        var parts := init[..n - 1] + [last];
        assert parts[..n - 1] == init[..n - 1];
        if n == 1 {
          assert Join(parts, [c]) == last;
        } else {
          assert init[..n - 1][..n - 2] == init[..n - 2];
          assert Join(init, [c]) == Join(init[..n - 1], [c]) + [c] + init[n - 1];
          assert Join(parts, [c]) == Join(init[..n - 1], [c]) + [c] + last;
        }
      }
    }
  }

  /** No piece of a split contains the separator. */
  lemma {:induction false} SplitPiecesFree(s: string, c: char)
    ensures forall k :: 0 <= k < |Split(s, c)| ==> c !in Split(s, c)[k]
  {
    if s != [] {
      var pre, x := s[..|s| - 1], s[|s| - 1];
      assert s == pre + [x];
      var init := Split(pre, c);
      var n := |init|;
      SplitPiecesFree(pre, c);
      if x == c {
        SplitOpen(pre, c);
      } else {
        SplitExtend(pre, c, x);
        var parts := init[..n - 1] + [init[n - 1] + [x]];
        forall k | 0 <= k < |parts| ensures c !in parts[k] {
          if k < n - 1 {
            assert parts[k] == init[k];
          }
        }
      }
    }
  }

  /** Extending the last piece of `a + b` extends the last piece of `b`. */
  lemma ExtendLastPiece(a: seq<string>, b: seq<string>, x: char)
    requires |b| >= 1
    ensures var ab := a + b;
      ab[..|ab| - 1] + [ab[|ab| - 1] + [x]] == a + (b[..|b| - 1] + [b[|b| - 1] + [x]])
  {
    var ab := a + b;
    assert ab[..|ab| - 1] == a + b[..|b| - 1];
  }

  /** Splitting at a separator that the string holds splits the pieces on
      either side independently. */
  lemma {:induction false} SplitAround(s: string, t: string, c: char)
    ensures Split(s + [c] + t, c) == Split(s, c) + Split(t, c)
    decreases |t|
  {
    if t == [] {
      SplitOpen(s, c);
      assert s + [c] + t == s + [c];
    } else {
      var t', x := t[..|t| - 1], t[|t| - 1];
      var u := s + [c] + t';
      assert t == t' + [x];
      assert s + [c] + t == u + [x];
      SplitAround(s, t', c);
      if x == c {
        SplitOpen(u, c);
        SplitOpen(t', c);
      } else {
        SplitExtend(u, c, x);
        SplitExtend(t', c, x);
        ExtendLastPiece(Split(s, c), Split(t', c), x);
      }
    }
  }

  /** A string without the separator splits into itself alone. */
  lemma {:induction false} SplitNoSeparator(t: string, c: char)
    requires c !in t
    ensures Split(t, c) == [t]
  {
    if t != [] {
      SplitNoSeparator(t[..|t| - 1], c);
      assert t[..|t| - 1] + [t[|t| - 1]] == t;
    }
  }

  /** Splitting what `join` built recovers the items, when none of them holds
      the separator. */
  lemma {:induction false} JoinSplit(items: seq<string>, c: char)
    requires |items| >= 1
    requires forall k :: 0 <= k < |items| ==> c !in items[k]
    ensures Split(Join(items, [c]), c) == items
  {
    var n := |items|;
    if n == 1 {
      SplitNoSeparator(items[0], c);
    } else {
      var init := items[..n - 1];
      JoinSplit(init, c);
      SplitAround(Join(init, [c]), items[n - 1], c);
      SplitNoSeparator(items[n - 1], c);
      assert Join(items, [c]) == Join(init, [c]) + [c] + items[n - 1];
    }
  }
}
