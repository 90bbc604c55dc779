/** Shared vocabulary of the model: optional values, the error responses the
    handlers send, and the JavaScript string and array operations that the
    controllers and pages rely on (`trim`, `split(' ')`, `replace(/[^0-9]/g, '')`,
    `toUpperCase`, `filter`, `slice`, number-to-string conversion). */
module Common {

  datatype Option<+T> = None | Some(value: T)

  /** An error response: the HTTP status code and the message the handler sends. */
  datatype Error = Error(status: nat, message: string)

  datatype Result<+T> = Ok(value: T) | Err(error: Error)

  function Max(a: int, b: int): int { if a < b then b else a }

  function Min(a: int, b: int): int { if a < b then a else b }

  // ---------------------------------------------------------------------------
  // JavaScript truthiness

  /** Truthiness of a string that may be null or undefined: only a present,
      non-empty string is truthy ("0" is truthy). */
  predicate Truthy(s: Option<string>) {
    s.Some? && s.value != ""
  }

  /** `s || null` for a string that may be absent. */
  function OrNull(s: Option<string>): (r: Option<string>)
    ensures r.Some? <==> Truthy(s)
    ensures r.Some? ==> r == s
  {
    if Truthy(s) then s else None
  }

  /** `n || 0` for a number that may be absent (0 is falsy, so only absence changes). */
  function OrZero(n: Option<int>): (r: int)
    ensures n.Some? ==> r == n.value
    ensures n.None? ==> r == 0
  {
    if n.Some? then n.value else 0
  }

  // ---------------------------------------------------------------------------
  // Whitespace and String.prototype.trim

  /** The characters `trim` removes: ECMAScript WhiteSpace and LineTerminator. */
  predicate IsWhitespace(c: char) {
    || c == ' ' || c == '\t' || c == '\n' || c == '\r'
    || c == '\U{000B}' || c == '\U{000C}' || c == '\U{00A0}' || c == '\U{1680}'
    || ('\U{2000}' <= c <= '\U{200A}')
    || c == '\U{2028}' || c == '\U{2029}' || c == '\U{202F}' || c == '\U{205F}'
    || c == '\U{3000}' || c == '\U{FEFF}'
  }

  function TrimStart(s: string): (r: string)
    ensures |r| <= |s| && r == s[|s| - |r|..]
    ensures r == "" || !IsWhitespace(r[0])
    ensures forall i :: 0 <= i < |s| - |r| ==> IsWhitespace(s[i])
  {
    if s != "" && IsWhitespace(s[0]) then TrimStart(s[1..]) else s
  }

  function TrimEnd(s: string): (r: string)
    ensures |r| <= |s| && r == s[..|r|]
    ensures r == "" || !IsWhitespace(r[|r| - 1])
    ensures forall i :: |r| <= i < |s| ==> IsWhitespace(s[i])
  {
    if s != "" && IsWhitespace(s[|s| - 1]) then TrimEnd(s[..|s| - 1]) else s
  }

  /** `s.trim()`: a piece of `s` with no whitespace at either end. */
  function Trim(s: string): (r: string)
    ensures |r| <= |s|
    ensures r == "" || (!IsWhitespace(r[0]) && !IsWhitespace(r[|r| - 1]))
  {
    TrimEnd(TrimStart(s))
  }

  /** A string that `trim` turns into "" (`s.trim() === ""`). */
  predicate IsBlank(s: string) {
    Trim(s) == ""
  }

  /** Trimming a trimmed string changes nothing. */
  lemma TrimIdempotent(s: string)
    ensures Trim(Trim(s)) == Trim(s)
  {
    var t := Trim(s);
    if t != "" {
      assert TrimStart(t) == t;
      assert TrimEnd(t) == t;
    }
  }

  /** A string with no whitespace at either end is its own trim. */
  lemma TrimUntrimmed(s: string)
    requires s == "" || (!IsWhitespace(s[0]) && !IsWhitespace(s[|s| - 1]))
    ensures Trim(s) == s
  {
    assert TrimStart(s) == s;
  }

  lemma BlankIffAllWhitespace(s: string)
    ensures IsBlank(s) <==> forall i :: 0 <= i < |s| ==> IsWhitespace(s[i])
  {
    var t := TrimStart(s);
    if !forall i :: 0 <= i < |s| ==> IsWhitespace(s[i]) {
      var k :| 0 <= k < |s| && !IsWhitespace(s[k]);
      assert t[k - (|s| - |t|)] == s[k];
    }
  }

  // ---------------------------------------------------------------------------
  // Digits: `s.replace(/[^0-9]/g, '')` and `s.replace(/\d/g, '')`

  predicate IsDigit(c: char) {
    '0' <= c <= '9'
  }

  predicate AllDigits(s: string) {
    forall i :: 0 <= i < |s| ==> IsDigit(s[i])
  }

  /** `s.replace(/[^0-9]/g, '')` (equally `s.replace(/\D/g, '')`). */
  function DigitsOnly(s: string): (r: string)
    ensures AllDigits(r)
    ensures |r| <= |s|
  {
    if s == "" then "" else (if IsDigit(s[0]) then [s[0]] else "") + DigitsOnly(s[1..])
  }

  /** `s.replace(/\d/g, '')`. */
  function NonDigits(s: string): (r: string)
    ensures forall i :: 0 <= i < |r| ==> !IsDigit(r[i])
    ensures |r| <= |s|
  {
    if s == "" then "" else (if IsDigit(s[0]) then "" else [s[0]]) + NonDigits(s[1..])
  }

  /** Removing the non-digits keeps the digits in their order: it distributes over
      concatenation. */
  lemma {:induction false} DigitsOnlyAppend(a: string, b: string)
    ensures DigitsOnly(a + b) == DigitsOnly(a) + DigitsOnly(b)
  {
    if a != "" {
      assert (a + b)[1..] == a[1..] + b;
      DigitsOnlyAppend(a[1..], b);
    } else {
      assert a + b == b;
    }
  }

  /** Removing the digits distributes over concatenation as well. */
  lemma {:induction false} NonDigitsAppend(a: string, b: string)
    ensures NonDigits(a + b) == NonDigits(a) + NonDigits(b)
  {
    if a != "" {
      assert (a + b)[1..] == a[1..] + b;
      NonDigitsAppend(a[1..], b);
    } else {
      assert a + b == b;
    }
  }

  /** A string of digits has no non-digits. */
  lemma {:induction false} NonDigitsOfDigits(s: string)
    requires AllDigits(s)
    ensures NonDigits(s) == ""
  {
    if s != "" {
      NonDigitsOfDigits(s[1..]);
    }
  }

  /** The digits and the non-digits of a string together are exactly its characters. */
  lemma {:induction false} DigitSplitIsPermutation(s: string)
    ensures multiset(DigitsOnly(s)) + multiset(NonDigits(s)) == multiset(s)
  {
    if s != "" {
      var t := s[1..];
      DigitSplitIsPermutation(t);
      assert s == [s[0]] + t;
      assert multiset(s) == multiset{s[0]} + multiset(t);
      if IsDigit(s[0]) {
        assert DigitsOnly(s) == [s[0]] + DigitsOnly(t) && NonDigits(s) == NonDigits(t);
      } else {
        assert DigitsOnly(s) == DigitsOnly(t) && NonDigits(s) == [s[0]] + NonDigits(t);
      }
    }
  }

  /** Stripping changes nothing exactly when the string is all digits. */
  lemma {:induction false} DigitsOnlyFixpoint(s: string)
    ensures DigitsOnly(s) == s <==> AllDigits(s)
  {
    if s != "" {
      DigitsOnlyFixpoint(s[1..]);
      if !IsDigit(s[0]) {
        assert |DigitsOnly(s)| < |s|;
      }
    }
  }

  /** Stripping leaves something exactly when the string holds a digit. */
  lemma {:induction false} DigitsOnlyEmptyIff(s: string)
    ensures DigitsOnly(s) == "" <==> forall i :: 0 <= i < |s| ==> !IsDigit(s[i])
  {
    if s != "" {
      DigitsOnlyEmptyIff(s[1..]);
      assert forall i :: 1 <= i < |s| ==> s[i] == s[1..][i - 1];
    }
  }

  // ---------------------------------------------------------------------------
  // `s.split(' ')` and its inverse `words.join(' ')`

  /** `s.split(' ')`: the pieces between single spaces; at least one piece. */
  function Split(s: string): (r: seq<string>)
    ensures |r| >= 1
    ensures forall i :: 0 <= i < |r| ==> ' ' !in r[i]
  {
    if s == "" then [""]
    else
      var rest := Split(s[1..]);
      if s[0] == ' ' then [""] + rest else [[s[0]] + rest[0]] + rest[1..]
  }

  /** `words.join(' ')`. */
  function JoinSpaces(words: seq<string>): string
    requires |words| >= 1
  {
    if |words| == 1 then words[0] else words[0] + " " + JoinSpaces(words[1..])
  }

  /** Splitting loses nothing: joining the pieces with single spaces gives back the string. */
  lemma {:induction false} SplitJoinRoundTrip(s: string)
    ensures JoinSpaces(Split(s)) == s
  {
    if s != "" {
      var rest := Split(s[1..]);
      SplitJoinRoundTrip(s[1..]);
      if s[0] == ' ' {
        var r := [""] + rest;
        assert Split(s) == r && r[1..] == rest;
        assert JoinSpaces(r) == "" + " " + JoinSpaces(rest);
        assert s == " " + s[1..];
      } else {
        var w := [s[0]] + rest[0];
        var r := [w] + rest[1..];
        assert Split(s) == r;
        if |rest| == 1 {
          assert JoinSpaces(r) == w;
        } else {
          assert r[1..] == rest[1..];
          assert JoinSpaces(r) == w + " " + JoinSpaces(rest[1..]);
          assert JoinSpaces(rest) == rest[0] + " " + JoinSpaces(rest[1..]);
        }
        assert s == [s[0]] + s[1..];
      }
    }
  }

  /** A piece without spaces splits into itself. */
  lemma {:induction false} SplitWithoutSpace(s: string)
    requires ' ' !in s
    ensures Split(s) == [s]
  {
    if s != "" {
      SplitWithoutSpace(s[1..]);
      assert [s[0]] + s[1..] == s;
    }
  }

  /** A word followed by a space splits off as the first piece. */
  lemma {:induction false} SplitAfterWord(w: string, t: string)
    requires ' ' !in w
    ensures Split(w + " " + t) == [w] + Split(t)
  {
    var s := w + " " + t;
    if w == "" {
      assert s[0] == ' ' && s[1..] == t;
    } else {
      assert s[0] == w[0] && s[1..] == w[1..] + " " + t;
      SplitAfterWord(w[1..], t);
      assert [w[0]] + w[1..] == w;
    }
  }

  /** Joining spaceless pieces and splitting the result gives the pieces back. */
  lemma {:induction false} JoinSplitRoundTrip(words: seq<string>)
    requires |words| >= 1
    requires forall i :: 0 <= i < |words| ==> ' ' !in words[i]
    ensures Split(JoinSpaces(words)) == words
  {
    if |words| == 1 {
      SplitWithoutSpace(words[0]);
    } else {
      JoinSplitRoundTrip(words[1..]);
      SplitAfterWord(words[0], JoinSpaces(words[1..]));
      assert [words[0]] + words[1..] == words;
    }
  }

  // ---------------------------------------------------------------------------
  // Number to decimal string (`${n}` for a non-negative integer)

  function DigitChar(d: nat): (c: char)
    requires d < 10
    ensures IsDigit(c)
  {
    ('0' as int + d) as char
  }

  /** `${n}` for a natural number: its decimal digits, most significant first. */
  function NatToString(n: nat): (r: string)
    ensures |r| >= 1 && AllDigits(r)
  {
    if n < 10 then [DigitChar(n)] else NatToString(n / 10) + [DigitChar(n % 10)]
  }

  /** The value of a string of decimal digits. */
  function ParseDigits(s: string): nat
    requires AllDigits(s)
  {
    if s == "" then 0 else ParseDigits(s[..|s| - 1]) * 10 + (s[|s| - 1] as int - '0' as int)
  }

  lemma {:induction false} NatToStringRoundTrip(n: nat)
    ensures ParseDigits(NatToString(n)) == n
  {
    if n >= 10 {
      var s := NatToString(n / 10) + [DigitChar(n % 10)];
      assert s[..|s| - 1] == NatToString(n / 10);
      NatToStringRoundTrip(n / 10);
    }
  }

  /** Different numbers print differently. */
  lemma NatToStringInjective(a: nat, b: nat)
    requires NatToString(a) == NatToString(b)
    ensures a == b
  {
    NatToStringRoundTrip(a);
    NatToStringRoundTrip(b);
  }

  // ---------------------------------------------------------------------------
  // toUpperCase on the Latin letters

  /** Whether `c` is a small letter of Latin Extended-A or Latin Extended Additional
      whose capital is the code point just before it (the blocks holding đ, ă, ĩ, ũ
      and the Vietnamese letters with tone marks). */
  predicate LowerBeforeCapital(c: char) {
    var n := c as int;
    || ((0x0100 <= n <= 0x012F || 0x0132 <= n <= 0x0137 || 0x014A <= n <= 0x0177) && n % 2 == 1)
    || ((0x0139 <= n <= 0x0148 || 0x0179 <= n <= 0x017E) && n % 2 == 0)
    || ((0x1E00 <= n <= 0x1E95 || 0x1EA0 <= n <= 0x1EFF) && n % 2 == 1)
  }

  /** The capital of a small Latin letter, as `toUpperCase` gives it for the letters
      that map to one capital: ASCII, Latin-1 (and ÿ), Latin Extended-A, ơ and ư,
      and Latin Extended Additional. Every other character is kept. */
  function ToUpperChar(c: char): (r: char)
    ensures 'a' <= c <= 'z' ==> r as int == c as int - 32
    ensures c == 'đ' ==> r == 'Đ'
    ensures 'A' <= r <= 'Z' <==> 'A' <= c <= 'Z' || 'a' <= c <= 'z'
  {
    var n := c as int;
    if 'a' <= c <= 'z' then (n - 32) as char
    else if 0xE0 <= n <= 0xFE && n != 0xF7 then (n - 32) as char
    else if n == 0xFF then 0x0178 as char
    else if n == 0x01A1 || n == 0x01B0 then (n - 1) as char
    else if LowerBeforeCapital(c) then (n - 1) as char
    else c
  }

  /** Upper-casing twice is upper-casing once: no capital is mapped again. */
  lemma ToUpperCharIdempotent(c: char)
    ensures ToUpperChar(ToUpperChar(c)) == ToUpperChar(c)
  {
    var n := c as int;
    if ToUpperChar(c) != c {
      var m := ToUpperChar(c) as int;
      assert m == n - 32 || m == 0x0178 || m == n - 1;
      assert !LowerBeforeCapital(ToUpperChar(c));
    }
  }

  /** `s.toUpperCase()` letter by letter (see `ToUpperChar`). */
  function ToUpper(s: string): (r: string)
    ensures |r| == |s|
    ensures forall i :: 0 <= i < |s| ==> r[i] == ToUpperChar(s[i])
  {
    seq(|s|, i requires 0 <= i < |s| => ToUpperChar(s[i]))
  }

  // ---------------------------------------------------------------------------
  // Array helpers: filter, count, slice(0, n)

  /** `s.filter(p)`. */
  function Filter<T>(s: seq<T>, p: T -> bool): (r: seq<T>)
    ensures |r| <= |s|
    ensures forall i :: 0 <= i < |r| ==> p(r[i]) && r[i] in s
  {
    if s == [] then [] else (if p(s[0]) then [s[0]] else []) + Filter(s[1..], p)
  }

  /** Filtering keeps exactly the elements that pass. */
  lemma {:induction false} FilterMembership<T>(s: seq<T>, p: T -> bool, x: T)
    ensures x in Filter(s, p) <==> x in s && p(x)
  {
    if s != [] {
      FilterMembership(s[1..], p, x);
      assert s == [s[0]] + s[1..];
    }
  }

  /** Filtering keeps the original order: it distributes over concatenation. */
  lemma {:induction false} FilterAppend<T>(a: seq<T>, b: seq<T>, p: T -> bool)
    ensures Filter(a + b, p) == Filter(a, p) + Filter(b, p)
  {
    if a == [] {
      assert a + b == b;
    } else {
      assert (a + b)[1..] == a[1..] + b;
      FilterAppend(a[1..], b, p);
    }
  }

  /** A filter every element passes keeps the whole sequence. */
  lemma {:induction false} FilterAll<T>(s: seq<T>, p: T -> bool)
    requires forall i :: 0 <= i < |s| ==> p(s[i])
    ensures Filter(s, p) == s
  {
    if s != [] {
      FilterAll(s[1..], p);
    }
  }

  /** A loop that pushes `f(x)` for each element `x` that passes `keep`. */
  function FilterMap<T, U>(s: seq<T>, keep: T -> bool, f: T -> U): (r: seq<U>)
    ensures |r| <= |s|
  {
    if s == [] then [] else (if keep(s[0]) then [f(s[0])] else []) + FilterMap(s[1..], keep, f)
  }

  /** One step of the loop: the first element's image, if it passes, then the rest. */
  lemma FilterMapCons<T, U>(x: T, s: seq<T>, keep: T -> bool, f: T -> U)
    ensures FilterMap([x] + s, keep, f) == (if keep(x) then [f(x)] else []) + FilterMap(s, keep, f)
  {
    assert ([x] + s)[0] == x && ([x] + s)[1..] == s;
  }

  /** The last step of the loop: what the prefix pushed, then the last element's
      image if it passes. */
  lemma FilterMapSnoc<T, U>(s: seq<T>, x: T, keep: T -> bool, f: T -> U)
    ensures FilterMap(s + [x], keep, f) == FilterMap(s, keep, f) + (if keep(x) then [f(x)] else [])
  {
    FilterMapAppend(s, [x], keep, f);
    FilterMapCons(x, [], keep, f);
    assert [x] + [] == [x];
  }

  /** Pushing over two parts pushes each part, in order. */
  lemma {:induction false} FilterMapAppend<T, U>(a: seq<T>, b: seq<T>, keep: T -> bool, f: T -> U)
    ensures FilterMap(a + b, keep, f) == FilterMap(a, keep, f) + FilterMap(b, keep, f)
  {
    if a == [] {
      assert a + b == b;
    } else {
      var head := if keep(a[0]) then [f(a[0])] else [];
      assert (a + b)[0] == a[0] && (a + b)[1..] == a[1..] + b;
      FilterMapAppend(a[1..], b, keep, f);
      assert FilterMap(a + b, keep, f) == head + FilterMap(a[1..] + b, keep, f);
      assert FilterMap(a, keep, f) == head + FilterMap(a[1..], keep, f);
    }
  }

  /** Every passing element's image is pushed, and everything pushed is the image of
      a passing element. */
  lemma {:induction false} FilterMapMembership<T, U>(s: seq<T>, keep: T -> bool, f: T -> U)
    ensures forall i :: 0 <= i < |s| && keep(s[i]) ==> f(s[i]) in FilterMap(s, keep, f)
    ensures forall j :: 0 <= j < |FilterMap(s, keep, f)| ==>
      exists i :: 0 <= i < |s| && keep(s[i]) && f(s[i]) == FilterMap(s, keep, f)[j]
  {
    if s != [] {
      FilterMapMembership(s[1..], keep, f);
      var head := if keep(s[0]) then [f(s[0])] else [];
      var tail := FilterMap(s[1..], keep, f);
      var r := FilterMap(s, keep, f);
      assert r == head + tail;
      forall i | 0 <= i < |s| && keep(s[i])
        ensures f(s[i]) in r
      {
        if i > 0 {
          assert s[1..][i - 1] == s[i];
        }
      }
      forall j | 0 <= j < |r|
        ensures exists i :: 0 <= i < |s| && keep(s[i]) && f(s[i]) == r[j]
      {
        if j < |head| {
          assert keep(s[0]) && f(s[0]) == r[j];
        } else {
          var i :| 0 <= i < |s[1..]| && keep(s[1..][i]) && f(s[1..][i]) == tail[j - |head|];
          assert keep(s[i + 1]) && f(s[i + 1]) == r[j];
        }
      }
    } else {
      assert FilterMap(s, keep, f) == [];
    }
  }

  /** Number of elements that satisfy `p`. */
  function Count<T>(s: seq<T>, p: T -> bool): (n: nat)
    ensures n <= |s|
    ensures n == 0 <==> forall i :: 0 <= i < |s| ==> !p(s[i])
  {
    if s == [] then 0 else (if p(s[0]) then 1 else 0) + Count(s[1..], p)
  }

  /** Sum of `f` over the elements of `s` (SQL `SUM`). */
  function Sum<T>(s: seq<T>, f: T -> int): (r: int)
    ensures (forall i :: 0 <= i < |s| ==> f(s[i]) == 0) ==> r == 0
    ensures (forall i :: 0 <= i < |s| ==> f(s[i]) >= 0) ==> r >= 0
  {
    if s == [] then 0 else f(s[0]) + Sum(s[1..], f)
  }

  /** `s.slice(0, n)` for n >= 0 (and SQL `LIMIT n`). */
  function Take<T>(s: seq<T>, n: nat): (r: seq<T>)
    ensures |r| == Min(|s|, n)
    ensures r == s[..|r|]
  {
    if |s| <= n then s else s[..n]
  }

  /** `s.find(p)`: the first element that satisfies `p`, if any. */
  function Find<T>(s: seq<T>, p: T -> bool): (r: Option<T>)
    ensures r.None? <==> forall i :: 0 <= i < |s| ==> !p(s[i])
    ensures r.Some? ==> exists i :: 0 <= i < |s| && s[i] == r.value && p(s[i]) && forall j :: 0 <= j < i ==> !p(s[j])
  {
    if s == [] then None
    else if p(s[0]) then Some(s[0])
    else
      var r := Find(s[1..], p);
      assert r.Some? ==> exists i :: 0 <= i < |s[1..]| && s[1..][i] == r.value && p(s[1..][i])
                                     && forall j :: 0 <= j < i ==> !p(s[1..][j]);
      r
  }
}
