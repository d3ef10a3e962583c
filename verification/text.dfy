/**
 * The JavaScript string operations the site relies on, over `seq<char>`:
 * `toLowerCase` (ASCII letters only), `includes`, `split` on one character,
 * the whitespace test behind `trim() !== ''`, `replace` of the first
 * occurrence of a character, `parseInt` on a decimal prefix, and the decimal
 * rendering of an integer (`String(n)`, `${n}`).
 */
module Text {
  import opened Wrappers

  // ---------------------------------------------------------------------
  // Case folding and substring search
  // ---------------------------------------------------------------------

  /** `toLowerCase` on one character; only the ASCII letters A-Z are folded. */
  function LowerChar(c: char): char {
    if 'A' <= c <= 'Z' then (c as int - 'A' as int + 'a' as int) as char else c
  }

  function Lower(s: string): (r: string)
    ensures |r| == |s|
    ensures forall i :: 0 <= i < |s| ==> r[i] == LowerChar(s[i])
  {
    seq(|s|, i requires 0 <= i < |s| => LowerChar(s[i]))
  }

  /** `hay.includes(needle)`. */
  predicate Includes(hay: string, needle: string)
    decreases |hay|
  {
    needle <= hay || (hay != [] && Includes(hay[1..], needle))
  }

  /** `needle` is the slice of `hay` that starts at index `i`. */
  ghost predicate OccursAt(hay: string, needle: string, i: int) {
    0 <= i && i + |needle| <= |hay| && hay[i..i + |needle|] == needle
  }

  /** `includes` holds exactly when the needle occurs at some index of the haystack. */
  lemma {:induction false} IncludesIffOccurs(hay: string, needle: string)
    ensures Includes(hay, needle) <==> exists i :: OccursAt(hay, needle, i)
    decreases |hay|
  {
    if needle <= hay {
      assert OccursAt(hay, needle, 0);
    } else if hay == [] {
      assert forall i :: !OccursAt(hay, needle, i);
    } else {
      var tail := hay[1..];
      assert OccursAt(hay, needle, 0) ==> needle <= hay;
      IncludesIffOccurs(tail, needle);
      forall i | OccursAt(tail, needle, i)
        ensures OccursAt(hay, needle, i + 1)
      {
        assert tail[i..i + |needle|] == hay[i + 1..i + 1 + |needle|];
      }
      forall i | OccursAt(hay, needle, i)
        ensures i >= 1 && OccursAt(tail, needle, i - 1)
      {
        assert tail[i - 1..i - 1 + |needle|] == hay[i..i + |needle|];
      }
    }
  }

  /** Every string includes the empty string. */
  lemma IncludesEmpty(hay: string)
    ensures Includes(hay, "")
  {
  }

  // ---------------------------------------------------------------------
  // split / join on one separator character
  // ---------------------------------------------------------------------

  /** `pieces.join(sep)`. */
  function Join(pieces: seq<string>, sep: char): string
  {
    if |pieces| == 0 then ""
    else if |pieces| == 1 then pieces[0]
    else pieces[0] + [sep] + Join(pieces[1..], sep)
  }

  /**
   * `s.split(sep)`: the separator-free pieces between the separators, in
   * order. There is always at least one piece (`"".split(sep)` is `[""]`).
   */
  function Split(s: string, sep: char): (pieces: seq<string>)
    ensures |pieces| >= 1
    ensures forall i :: 0 <= i < |pieces| ==> sep !in pieces[i]
    decreases |s|
  {
    if s == [] then [""]
    else
      var rest := Split(s[1..], sep);
      if s[0] == sep then [""] + rest
      else
        var first := [s[0]] + rest[0];
        assert forall k :: 0 < k < |first| ==> first[k] == rest[0][k - 1];
        [first] + rest[1..]
  }

  /** Joining the pieces of a split gives back the string. */
  lemma {:induction false} JoinSplit(s: string, sep: char)
    ensures Join(Split(s, sep), sep) == s
    decreases |s|
  {
    if s != [] {
      var rest := Split(s[1..], sep);
      JoinSplit(s[1..], sep);
      assert s == [s[0]] + s[1..];
      if s[0] != sep {
        var pieces := Split(s, sep);
        assert pieces[0] == [s[0]] + rest[0];
        assert pieces[1..] == rest[1..];
        if |rest| > 1 {
          assert Join(rest, sep) == rest[0] + [sep] + Join(rest[1..], sep);
          assert Join(pieces, sep) == pieces[0] + [sep] + Join(pieces[1..], sep);
        }
      }
    }
  }

  /** Splitting a separator-free prefix off: it is glued onto the first piece. */
  lemma {:induction false} SplitPrefix(p: string, tail: string, sep: char)
    requires sep !in p
    ensures Split(p + tail, sep) == [p + Split(tail, sep)[0]] + Split(tail, sep)[1..]
    decreases |p|
  {
    var t := Split(tail, sep);
    if p == [] {
      assert p + tail == tail && p + t[0] == t[0];
      assert t == [t[0]] + t[1..];
    } else {
      var s := p + tail;
      SplitPrefix(p[1..], tail, sep);
      assert s[0] == p[0] && s[1..] == p[1..] + tail;
      var rest := Split(s[1..], sep);
      assert rest[0] == p[1..] + t[0] && rest[1..] == t[1..];
      assert Split(s, sep) == [[p[0]] + rest[0]] + rest[1..];
      assert [p[0]] + (p[1..] + t[0]) == p + t[0];
    }
  }

  /** `split` undoes `join` whenever no piece holds the separator. */
  lemma {:induction false} SplitJoin(pieces: seq<string>, sep: char)
    requires |pieces| >= 1
    requires forall i :: 0 <= i < |pieces| ==> sep !in pieces[i]
    ensures Split(Join(pieces, sep), sep) == pieces
    decreases |pieces|
  {
    if |pieces| == 1 {
      SplitPrefix(pieces[0], "", sep);
      var e := Split("", sep);
      assert e == [""] && e[1..] == [];
      assert pieces[0] + e[0] == pieces[0] && pieces == [pieces[0]];
      assert Join(pieces, sep) == pieces[0] + "";
    } else {
      var rest := pieces[1..];
      SplitJoin(rest, sep);
      var tail := [sep] + Join(rest, sep);
      assert Join(pieces, sep) == pieces[0] + tail;
      SplitPrefix(pieces[0], tail, sep);
      assert tail[1..] == Join(rest, sep);
      var st := Split(tail, sep);
      assert st == [""] + rest;
      assert st[0] == "" && st[1..] == rest;
      assert pieces[0] + st[0] == pieces[0];
      assert pieces == [pieces[0]] + rest;
    }
  }

  // ---------------------------------------------------------------------
  // Whitespace (`trim`) and `replace(c, '')`
  // ---------------------------------------------------------------------

  /**
   * The characters `String.prototype.trim` strips: the ECMAScript WhiteSpace
   * characters (tab, vertical tab, form feed, space, no-break space, byte
   * order mark and the Unicode space separators) and the line terminators.
   */
  predicate IsSpace(c: char) {
    var n := c as int;
    n == 0x09 || n == 0x0A || n == 0x0B || n == 0x0C || n == 0x0D || n == 0x20 ||
    n == 0xA0 || n == 0x1680 || (0x2000 <= n <= 0x200A) || n == 0x2028 || n == 0x2029 ||
    n == 0x202F || n == 0x205F || n == 0x3000 || n == 0xFEFF
  }

  /** `s.trim() === ''`: the string is empty or all whitespace. */
  predicate IsBlank(s: string) {
    forall i :: 0 <= i < |s| ==> IsSpace(s[i])
  }

  /** `s || fallback` on a string that may be missing: a missing or empty string gives the fallback. */
  function OrDefault(s: Option<string>, fallback: string): (v: string)
    ensures s.Some? && s.value != "" ==> v == s.value
    ensures s.None? || s.value == "" ==> v == fallback
  {
    if s.Some? && s.value != "" then s.value else fallback
  }

  /** `s.replace(c, '')`: the first occurrence of `c` is removed, if there is one. */
  function RemoveFirst(s: string, c: char): string
    decreases |s|
  {
    if s == [] then s
    else if s[0] == c then s[1..]
    else [s[0]] + RemoveFirst(s[1..], c)
  }

  /** The index of the first occurrence of `c` in `s`. */
  function IndexOf(s: string, c: char): (i: nat)
    requires c in s
    ensures i < |s| && s[i] == c && c !in s[..i]
    decreases |s|
  {
    if s[0] == c then 0
    else
      var i := 1 + IndexOf(s[1..], c);
      assert s[..i] == [s[0]] + s[1..][..i - 1];
      i
  }

  /** `replace` leaves a string without the character unchanged. */
  lemma {:induction false} RemoveFirstAbsent(s: string, c: char)
    requires c !in s
    ensures RemoveFirst(s, c) == s
    decreases |s|
  {
    if s != [] {
      assert s[0] != c && c !in s[1..];
      RemoveFirstAbsent(s[1..], c);
      assert s == [s[0]] + s[1..];
    }
  }

  /** `replace` removes exactly the first occurrence of the character. */
  lemma {:induction false} RemoveFirstPresent(s: string, c: char)
    requires c in s
    ensures RemoveFirst(s, c) == s[..IndexOf(s, c)] + s[IndexOf(s, c) + 1..]
    decreases |s|
  {
    if s[0] != c {
      var tail := s[1..];
      assert c in tail;
      RemoveFirstPresent(tail, c);
      var i := IndexOf(tail, c);
      assert IndexOf(s, c) == i + 1;
      assert RemoveFirst(s, c) == [s[0]] + (tail[..i] + tail[i + 1..]);
      assert s[..i + 1] == [s[0]] + tail[..i];
      assert s[i + 2..] == tail[i + 1..];
    }
  }

  /** `replace` removes exactly the first occurrence, and leaves a string without one unchanged. */
  lemma RemoveFirstSpec(s: string, c: char)
    ensures c !in s ==> RemoveFirst(s, c) == s
    ensures c in s ==> RemoveFirst(s, c) == s[..IndexOf(s, c)] + s[IndexOf(s, c) + 1..]
  {
    if c in s {
      RemoveFirstPresent(s, c);
    } else {
      RemoveFirstAbsent(s, c);
    }
  }

  // ---------------------------------------------------------------------
  // Decimal numbers: parseInt and String(n)
  // ---------------------------------------------------------------------

  predicate IsDigit(c: char) {
    '0' <= c <= '9'
  }

  predicate AllDigits(s: string) {
    forall i :: 0 <= i < |s| ==> IsDigit(s[i])
  }

  function DigitValue(c: char): nat
    requires IsDigit(c)
  {
    c as int - '0' as int
  }

  function DigitChar(d: nat): (c: char)
    requires d < 10
    ensures IsDigit(c) && DigitValue(c) == d
  {
    ('0' as int + d) as char
  }

  /** The longest prefix of `s` made of decimal digits. */
  function LeadingDigits(s: string): (ds: string)
    ensures ds <= s && AllDigits(ds)
    ensures |ds| < |s| ==> !IsDigit(s[|ds|])
    decreases |s|
  {
    if s != [] && IsDigit(s[0]) then [s[0]] + LeadingDigits(s[1..]) else []
  }

  /** The value of a string of decimal digits, most significant first. */
  function DecimalValue(ds: string): nat
    requires AllDigits(ds)
    decreases |ds|
  {
    if ds == [] then 0 else 10 * DecimalValue(ds[..|ds| - 1]) + DigitValue(ds[|ds| - 1])
  }

  /** `String(n)` for a natural number: its decimal digits, without leading zeros. */
  function ShowNat(n: nat): (s: string)
    ensures |s| >= 1 && AllDigits(s)
  {
    if n < 10 then [DigitChar(n)] else ShowNat(n / 10) + [DigitChar(n % 10)]
  }

  /** `String(n)` for an integer (the `${id}` of a link or a request path). */
  function Show(n: int): string {
    if n < 0 then "-" + ShowNat(-n) else ShowNat(n)
  }

  /** What `parseInt` skips before the number: the leading whitespace. */
  function SkipSpaces(s: string): (t: string)
    ensures |t| <= |s| && t == s[|s| - |t|..]
    ensures t == [] || !IsSpace(t[0])
    decreases |s|
  {
    if s != [] && IsSpace(s[0]) then SkipSpaces(s[1..]) else s
  }

  /**
   * `parseInt(s)` without a radix: leading whitespace is skipped, an optional
   * sign is read, then the longest run of decimal digits; no digit gives
   * `NaN`, written `None`. Whatever follows the digits is ignored.
   */
  function ParseInt(s: string): (r: Option<int>)
    ensures r.Some? ==> exists i :: 0 <= i < |s| && IsDigit(s[i])
  {
    var t := SkipSpaces(s);
    var k := |s| - |t|;
    if t != [] && t[0] == '-' then
      assert t[1..] == s[k + 1..];
      ParseDigitsAt(s, k + 1);
      match ParseDigits(t[1..])
      case None => None
      case Some(v) => Some(-v)
    else if t != [] && t[0] == '+' then
      assert t[1..] == s[k + 1..];
      ParseDigitsAt(s, k + 1);
      ParseDigits(t[1..])
    else
      ParseDigitsAt(s, k);
      ParseDigits(t)
  }

  /** The value of the run of digits a string starts with, or `None` when it starts with no digit. */
  function ParseDigits(u: string): Option<int> {
    var ds := LeadingDigits(u);
    if ds == [] then None else Some(DecimalValue(ds))
  }

  /** Digits are read from index `k` only when there is a digit at `k`. */
  lemma ParseDigitsAt(s: string, k: nat)
    requires k <= |s|
    ensures ParseDigits(s[k..]).Some? ==> k < |s| && IsDigit(s[k])
  {
    var ds := LeadingDigits(s[k..]);
    if ds != [] {
      assert ds[0] == s[k..][0] == s[k];
    }
  }

  lemma {:induction false} ShowNatValue(n: nat)
    ensures DecimalValue(ShowNat(n)) == n
  {
    if n >= 10 {
      ShowNatValue(n / 10);
      var s := ShowNat(n);
      assert s[..|s| - 1] == ShowNat(n / 10);
    }
  }

  lemma {:induction false} LeadingDigitsOf(ds: string, rest: string)
    requires AllDigits(ds)
    requires rest == [] || !IsDigit(rest[0])
    ensures LeadingDigits(ds + rest) == ds
    decreases |ds|
  {
    if ds != [] {
      LeadingDigitsOf(ds[1..], rest);
      assert (ds + rest)[1..] == ds[1..] + rest;
      assert ds == [ds[0]] + ds[1..];
    } else {
      assert ds + rest == rest;
    }
  }

  /** The digits a string starts with, followed by a non-digit, are read in full. */
  lemma ParseDigitsOf(ds: string, rest: string)
    requires ds != [] && AllDigits(ds)
    requires rest == [] || !IsDigit(rest[0])
    ensures ParseDigits(ds + rest) == Some(DecimalValue(ds))
  {
    LeadingDigitsOf(ds, rest);
  }

  /** `parseInt` skips no whitespace before a first character that is not one. */
  lemma SkipSpacesNone(s: string)
    requires s != [] && !IsSpace(s[0])
    ensures SkipSpaces(s) == s
  {
  }

  /** `parseInt` of a string that starts directly with its digits. */
  lemma ParseIntDigits(ds: string, rest: string)
    requires ds != [] && AllDigits(ds)
    requires rest == [] || !IsDigit(rest[0])
    ensures ParseInt(ds + rest) == Some(DecimalValue(ds))
  {
    var s := ds + rest;
    assert s[0] == ds[0] && IsDigit(s[0]);
    SkipSpacesNone(s);
    ParseDigitsOf(ds, rest);
  }

  /** `parseInt` of a minus sign and a string: the negated value of the digits the string starts with. */
  lemma ParseIntMinus(u: string)
    ensures ParseInt(['-'] + u) == if ParseDigits(u).Some? then Some(-ParseDigits(u).value) else None
  {
    var s := ['-'] + u;
    assert s[0] == '-';
    SkipSpacesNone(s);
    assert s[1..] == u;
  }

  /**
   * `parseInt` reads back what `String` writes, whatever non-digit text
   * follows: `parseInt(String(n) + rest) === n`.
   */
  lemma {:induction false} ParseIntShow(n: int, rest: string)
    requires rest == [] || !IsDigit(rest[0])
    ensures ParseInt(Show(n) + rest) == Some(n)
  {
    var m: nat := if n < 0 then -n else n;
    var ds := ShowNat(m);
    ShowNatValue(m);
    ParseDigitsOf(ds, rest);
    if n < 0 {
      assert Show(n) + rest == ['-'] + (ds + rest);
      ParseIntMinus(ds + rest);
    } else {
      assert Show(n) == ds;
      ParseIntDigits(ds, rest);
    }
  }
}
