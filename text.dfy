/**
  The parts of Python's `str` that the batch join relies on: `split` on one
  separator character, `strip`, slicing with clamped bounds, and `int()` of a
  string in base 10.
 */
module Text {
  import opened Wrappers
  import opened Errors

  /** Python's `str.isspace` for one character (the Unicode whitespace of CPython 3). */
  predicate IsSpace(c: char) {
    || ('\t' <= c <= '\r')
    || ('\U{1C}' <= c <= ' ')
    || c == '\U{85}' || c == '\U{A0}' || c == '\U{1680}'
    || ('\U{2000}' <= c <= '\U{200A}')
    || c == '\U{2028}' || c == '\U{2029}' || c == '\U{202F}' || c == '\U{205F}' || c == '\U{3000}'
  }

  /**
    The whitespace `int()` skips around a literal. CPython first turns every
    non-ASCII whitespace character into a space and then skips the C-locale
    ASCII whitespace, so U+001C..U+001F are not skipped although `isspace`
    accepts them.
   */
  predicate IsIntSpace(c: char) {
    ('\t' <= c <= '\r') || c == ' ' || (c > '\U{7F}' && IsSpace(c))
  }

  predicate IsDigit(c: char) {
    '0' <= c <= '9'
  }

  function Min(a: int, b: int): int {
    if a <= b then a else b
  }

  // ---------------------------------------------------------------- strip

  /** The length of the longest prefix of `s` made of `ws` characters. */
  function Lead(s: string, ws: char -> bool): (n: nat)
    ensures n <= |s|
    ensures forall i :: 0 <= i < n ==> ws(s[i])
    ensures n < |s| ==> !ws(s[n])
  {
    if s != [] && ws(s[0]) then 1 + Lead(s[1..], ws) else 0
  }

  /** The length of the longest suffix of `s` made of `ws` characters. */
  function Trail(s: string, ws: char -> bool): (n: nat)
    ensures n <= |s|
    ensures forall i :: |s| - n <= i < |s| ==> ws(s[i])
    ensures n < |s| ==> !ws(s[|s| - 1 - n])
  {
    if s != [] && ws(s[|s| - 1]) then 1 + Trail(s[..|s| - 1], ws) else 0
  }

  /**
    `s` without its leading and trailing `ws` characters: what is left is the
    slice of `s` that starts after the longest `ws` prefix, everything after it
    is `ws`, and it neither starts nor ends with a `ws` character.
   */
  function Trim(s: string, ws: char -> bool): (r: string)
    ensures Lead(s, ws) + |r| <= |s|
    ensures r == s[Lead(s, ws)..Lead(s, ws) + |r|]
    ensures forall i :: 0 <= i < Lead(s, ws) ==> ws(s[i])
    ensures forall i :: Lead(s, ws) + |r| <= i < |s| ==> ws(s[i])
    ensures r != [] ==> !ws(r[0]) && !ws(r[|r| - 1])
  {
    var t := s[Lead(s, ws)..];
    t[..|t| - Trail(t, ws)]
  }

  /** Python's `s.strip()`. */
  function Strip(s: string): (r: string)
    ensures Lead(s, IsSpace) + |r| <= |s|
    ensures r == s[Lead(s, IsSpace)..Lead(s, IsSpace) + |r|]
    ensures forall i :: 0 <= i < Lead(s, IsSpace) ==> IsSpace(s[i])
    ensures forall i :: Lead(s, IsSpace) + |r| <= i < |s| ==> IsSpace(s[i])
    ensures r != [] ==> !IsSpace(r[0]) && !IsSpace(r[|r| - 1])
  {
    Trim(s, IsSpace)
  }

  /** A string that neither starts nor ends with a `ws` character is its own trim. */
  lemma TrimUntrimmed(s: string, ws: char -> bool)
    requires s != [] ==> !ws(s[0]) && !ws(s[|s| - 1])
    ensures Trim(s, ws) == s
  {
    assert Lead(s, ws) == 0;
    assert s[0..] == s;
    if s != [] {
      assert Trail(s, ws) == 0;
    }
  }

  /** Trimming removes exactly the padding around a non-empty string that is its own trim. */
  lemma TrimPadded(pre: string, x: string, post: string, ws: char -> bool)
    requires forall i :: 0 <= i < |pre| ==> ws(pre[i])
    requires forall i :: 0 <= i < |post| ==> ws(post[i])
    requires x != [] && !ws(x[0]) && !ws(x[|x| - 1])
    ensures Trim(pre + x + post, ws) == x
  {
    var s := pre + x + post;
    assert s[|pre|] == x[0];
    var n := Lead(s, ws);
    assert n == |pre|;
    var t := s[n..];
    assert t == x + post;
    var m := Trail(t, ws);
    assert t[|x| - 1] == x[|x| - 1];
    assert m == |post|;
    assert t[..|t| - m] == x;
  }

  /** Trimming twice is trimming once. */
  lemma TrimIdempotent(s: string, ws: char -> bool)
    ensures Trim(Trim(s, ws), ws) == Trim(s, ws)
  {
    TrimUntrimmed(Trim(s, ws), ws);
  }

  // ---------------------------------------------------------------- split / join

  /** Python's `sep.join(parts)`. */
  function Join(parts: seq<string>, sep: char): (s: string)
    requires |parts| >= 1
  {
    if |parts| == 1 then parts[0] else parts[0] + [sep] + Join(parts[1..], sep)
  }

  /**
    Python's `s.split(sep)` for a one-character separator: the pieces between
    separators, in order, with an empty piece before a leading, after a
    trailing and between two adjacent separators. No piece holds the
    separator, and joining the pieces with it gives `s` back.
   */
  function Split(s: string, sep: char): (parts: seq<string>)
    ensures |parts| >= 1
    ensures forall i :: 0 <= i < |parts| ==> sep !in parts[i]
    ensures Join(parts, sep) == s
  {
    if s == [] then [[]]
    else
      var rest := Split(s[1..], sep);
      if s[0] == sep then
        assert ([[]] + rest)[1..] == rest;
        [[]] + rest
      else
        var parts := [[s[0]] + rest[0]] + rest[1..];
        assert parts[1..] == rest[1..];
        assert s == [s[0]] + s[1..];
        parts
  }

  /** A string without the separator splits into itself alone. */
  lemma SplitWithout(x: string, sep: char)
    requires sep !in x
    ensures Split(x, sep) == [x]
  {
    if x != [] {
      SplitWithout(x[1..], sep);
      assert [x[0]] + x[1..] == x;
    }
  }

  /** Splitting `x + [sep] + y` cuts at the first separator when `x` holds none. */
  lemma {:induction false} SplitAtFirst(x: string, y: string, sep: char)
    requires sep !in x
    ensures Split(x + [sep] + y, sep) == [x] + Split(y, sep)
  {
    if x == [] {
      assert ([sep] + y)[1..] == y;
    } else {
      SplitAtFirst(x[1..], y, sep);
      assert (x + [sep] + y)[1..] == x[1..] + [sep] + y;
      assert [x[0]] + x[1..] == x;
    }
  }

  /** Split undoes Join when no piece holds the separator. */
  lemma {:induction false} SplitJoin(parts: seq<string>, sep: char)
    requires |parts| >= 1
    requires forall i :: 0 <= i < |parts| ==> sep !in parts[i]
    ensures Split(Join(parts, sep), sep) == parts
  {
    if |parts| == 1 {
      SplitWithout(parts[0], sep);
    } else {
      SplitJoin(parts[1..], sep);
      SplitAtFirst(parts[0], Join(parts[1..], sep), sep);
      assert [parts[0]] + parts[1..] == parts;
    }
  }

  /** Joining with one more, empty, piece appends the separator. */
  lemma {:induction false} JoinAppendEmpty(parts: seq<string>, sep: char)
    requires |parts| >= 1
    ensures Join(parts + [[]], sep) == Join(parts, sep) + [sep]
  {
    if |parts| > 1 {
      assert (parts + [[]])[1..] == parts[1..] + [[]];
      JoinAppendEmpty(parts[1..], sep);
    }
  }

  /** A trailing separator adds one empty piece at the end of the split. */
  lemma SplitTrailingSeparator(s: string, sep: char)
    ensures Split(s + [sep], sep) == Split(s, sep) + [[]]
  {
    var parts := Split(s, sep);
    JoinAppendEmpty(parts, sep);
    SplitJoin(parts + [[]], sep);
  }

  // ---------------------------------------------------------------- slicing

  /** Python's `s[lo:hi]` for non-negative bounds: bounds past the end are clamped. */
  function Slice(s: string, lo: nat, hi: nat): (r: string)
    ensures |r| == if lo < hi && lo < |s| then Min(hi, |s|) - lo else 0
    ensures forall i :: 0 <= i < |r| ==> r[i] == s[lo + i]
  {
    if lo < hi && lo < |s| then s[lo..Min(hi, |s|)] else []
  }

  // ---------------------------------------------------------------- int()

  /** Decimal digits with single underscores between them, the base-10 body `int()` accepts. */
  predicate IsDigitGroups(t: string) {
    && |t| > 0 && IsDigit(t[0]) && IsDigit(t[|t| - 1])
    && (forall i :: 0 <= i < |t| ==> IsDigit(t[i]) || t[i] == '_')
    && (forall i :: 0 <= i < |t| - 1 ==> t[i] == '_' ==> t[i + 1] != '_')
  }

  /** The number the digits of `t` spell, underscores skipped. */
  function LiteralValue(t: string): int {
    if t == [] then 0
    else if t[|t| - 1] == '_' then LiteralValue(t[..|t| - 1])
    else 10 * LiteralValue(t[..|t| - 1]) + (t[|t| - 1] as int - '0' as int)
  }

  /**
    Python's `int(s)` for a `str` argument in base 10: surrounding whitespace
    is skipped, an optional sign is read, and the rest must be digit groups;
    anything else raises ValueError. A successful parse needs at least one
    digit in `s`, so an empty or digit-free string is always an error.
   */
  function ParseInt(s: string): (r: Result<int, Error>)
    ensures r.Err? ==> r.error == ValueError(s)
    ensures r.Ok? ==> exists i :: 0 <= i < |s| && IsDigit(s[i])
  {
    var t := Trim(s, IsIntSpace);
    var signed := |t| > 0 && (t[0] == '+' || t[0] == '-');
    var body := if signed then t[1..] else t;
    if IsDigitGroups(body) then
      var lead := Lead(s, IsIntSpace);
      var at := if signed then lead + 1 else lead;
      assert s[at] == body[0];
      var magnitude := LiteralValue(body);
      Ok(if signed && t[0] == '-' then -magnitude else magnitude)
    else
      Err(ValueError(s))
  }

  /** A character that is neither a digit, an underscore, a sign nor whitespace makes `int()` raise. */
  lemma ParseIntStrayCharacter(s: string, j: nat)
    requires j < |s|
    requires !IsDigit(s[j]) && s[j] != '_' && s[j] != '+' && s[j] != '-' && !IsIntSpace(s[j])
    ensures ParseInt(s) == Err(ValueError(s))
  {
    var n := Lead(s, IsIntSpace);
    var t := Trim(s, IsIntSpace);
    assert n <= j < n + |t|;
    assert t[j - n] == s[j];
    var signed := |t| > 0 && (t[0] == '+' || t[0] == '-');
    var body := if signed then t[1..] else t;
    var at := if signed then j - n - 1 else j - n;
    assert 0 <= at < |body| && body[at] == s[j];
  }

  /** Whitespace between two other characters makes `int()` raise: blanks are only skipped around the literal. */
  lemma ParseIntInnerSpace(s: string, a: nat, j: nat, b: nat)
    requires a < j < b < |s|
    requires !IsIntSpace(s[a]) && IsIntSpace(s[j]) && !IsIntSpace(s[b])
    ensures ParseInt(s) == Err(ValueError(s))
  {
    var n := Lead(s, IsIntSpace);
    var t := Trim(s, IsIntSpace);
    assert n <= a && b < n + |t|;
    assert t[j - n] == s[j];
    var signed := |t| > 0 && (t[0] == '+' || t[0] == '-');
    var body := if signed then t[1..] else t;
    var at := if signed then j - n - 1 else j - n;
    assert 0 <= at < |body| && body[at] == s[j];
  }

  /** The decimal digits of `n`, most significant first, without leading zeros. */
  function DecimalDigits(n: nat): (ds: string)
    ensures |ds| > 0
    ensures forall i :: 0 <= i < |ds| ==> IsDigit(ds[i])
    ensures LiteralValue(ds) == n
  {
    var last := ('0' as int + n % 10) as char;
    if n < 10 then
      assert [last][..0] == [];
      [last]
    else
      var ds := DecimalDigits(n / 10) + [last];
      assert ds[..|ds| - 1] == DecimalDigits(n / 10);
      ds
  }

  /** Python's `str(n)` for an integer. */
  function Decimal(n: int): string {
    if n < 0 then "-" + DecimalDigits(-n) else DecimalDigits(n)
  }

  /** A non-empty run of ASCII digits parses to the number it spells. */
  lemma ParseDigits(ds: string)
    requires |ds| > 0
    requires forall i :: 0 <= i < |ds| ==> IsDigit(ds[i])
    ensures ParseInt(ds) == Ok(LiteralValue(ds))
  {
    TrimUntrimmed(ds, IsIntSpace);
    assert !(ds[0] == '+' || ds[0] == '-');
    assert IsDigitGroups(ds);
  }

  /**
    `int(str(n)) == n`, for integers of any length: the limit of 4300 digits
    that recent CPython versions put on both conversions is not modelled.
   */
  lemma ParseDecimal(n: int)
    ensures ParseInt(Decimal(n)) == Ok(n)
  {
    var s := Decimal(n);
    TrimUntrimmed(s, IsIntSpace);
    if n < 0 {
      assert s[1..] == DecimalDigits(-n);
    }
  }
}
