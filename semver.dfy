/**
 * Semantic versions as Semantic Versioning 2.0.0 defines them: the text form
 * MAJOR.MINOR.PATCH[-PRERELEASE][+BUILD], a parser for it, a printer that the parser
 * inverts, and the precedence order of section 11 of that standard.
 */
module SemVer {
  import opened Wrappers
  import opened Strings

  /** A dot-separated pre-release identifier: all digits, or alphanumeric with hyphens. */
  datatype Ident = Numeric(n: nat) | Alphanumeric(text: string)

  /** Build metadata is accepted by the parser and, having no effect on precedence, not kept. */
  datatype Version = Version(major: nat, minor: nat, patch: nat, pre: seq<Ident>)

  predicate IsDigit(c: char)
  {
    '0' <= c <= '9'
  }

  predicate IsIdentChar(c: char)
  {
    IsDigit(c) || ('a' <= c <= 'z') || ('A' <= c <= 'Z') || c == '-'
  }

  predicate AllDigits(s: string)
  {
    forall i :: 0 <= i < |s| ==> IsDigit(s[i])
  }

  predicate AllIdentChars(s: string)
  {
    forall i :: 0 <= i < |s| ==> IsIdentChar(s[i])
  }

  /** A numeric field as the standard allows it: digits without a leading zero. */
  predicate NumericText(s: string)
  {
    |s| > 0 && AllDigits(s) && (s[0] != '0' || |s| == 1)
  }

  function DigitValue(c: char): nat
    requires IsDigit(c)
  {
    (c - '0') as nat
  }

  function DigitsValue(s: string): nat
    requires AllDigits(s)
  {
    if |s| == 0 then 0 else DigitsValue(s[..|s| - 1]) * 10 + DigitValue(s[|s| - 1])
  }

  function DigitChar(d: nat): (c: char)
    requires d < 10
    ensures IsDigit(c) && DigitValue(c) == d
  {
    ('0' as int + d) as char
  }

  /** Decimal text of `n`, without leading zeros. */
  function NatText(n: nat): string
  {
    if n < 10 then [DigitChar(n)] else NatText(n / 10) + [DigitChar(n % 10)]
  }

  lemma {:induction false} NatTextRoundTrip(n: nat)
    ensures NumericText(NatText(n)) && DigitsValue(NatText(n)) == n
  {
    if n >= 10 {
      NatTextRoundTrip(n / 10);
      var s := NatText(n);
      assert s[..|s| - 1] == NatText(n / 10);
    }
  }

  /** Index of the first `c` in `s`, or `|s|` when there is none. */
  function FindChar(s: string, c: char): (i: nat)
    ensures i <= |s|
    ensures forall j :: 0 <= j < i ==> s[j] != c
    ensures i < |s| ==> s[i] == c
  {
    if |s| == 0 then 0 else if s[0] == c then 0 else 1 + FindChar(s[1..], c)
  }

  function ParseIdent(s: string): (r: Option<Ident>)
    ensures r.Some? && r.value.Alphanumeric? ==> r.value.text == s && |s| > 0 && AllIdentChars(s) && !AllDigits(s)
  {
    if |s| == 0 || !AllIdentChars(s) then None
    else if AllDigits(s) then (if NumericText(s) then Some(Numeric(DigitsValue(s))) else None)
    else Some(Alphanumeric(s))
  }

  function ParseIdents(fs: seq<string>): (r: Option<seq<Ident>>)
    ensures r.Some? ==> |r.value| == |fs|
    ensures r.Some? ==> forall i :: 0 <= i < |fs| ==> ParseIdent(fs[i]) == Some(r.value[i])
  {
    if |fs| == 0 then Some([])
    else match (ParseIdent(fs[0]), ParseIdents(fs[1..]))
      case (Some(i), Some(rest)) => Some([i] + rest)
      case _ => None
  }

  predicate ValidBuild(s: string)
  {
    var fs := Fields(s, '.');
    forall i :: 0 <= i < |fs| ==> |fs[i]| > 0 && AllIdentChars(fs[i])
  }

  function ParseCore(core: string): Option<(nat, nat, nat)>
  {
    var fs := Fields(core, '.');
    if |fs| == 3 && NumericText(fs[0]) && NumericText(fs[1]) && NumericText(fs[2])
    then Some((DigitsValue(fs[0]), DigitsValue(fs[1]), DigitsValue(fs[2])))
    else None
  }

  /** Reads MAJOR.MINOR.PATCH, then an optional "-" pre-release and an optional "+" build. */
  function Parse(s: string): (r: Option<Version>)
    ensures r.Some? ==> WellFormed(r.value)
  {
    var plus := FindChar(s, '+');
    var main := s[..plus];
    var dash := FindChar(main, '-');
    var core := ParseCore(main[..dash]);
    var pre := if dash < |main| then ParseIdents(Fields(main[dash + 1..], '.')) else Some([]);
    if plus < |s| && !ValidBuild(s[plus + 1..]) then None
    else if core.None? || pre.None? then None
    else Some(Version(core.value.0, core.value.1, core.value.2, pre.value))
  }

  /** The versions `Format` can print: alphanumeric identifiers that parse back as they are. */
  ghost predicate WellFormed(v: Version)
  {
    forall i :: 0 <= i < |v.pre| ==> v.pre[i].Alphanumeric? ==>
      |v.pre[i].text| > 0 && AllIdentChars(v.pre[i].text) && !AllDigits(v.pre[i].text)
  }

  function IdentText(i: Ident): string
  {
    match i
    case Numeric(n) => NatText(n)
    case Alphanumeric(t) => t
  }

  function IdentTexts(pre: seq<Ident>): (r: seq<string>)
    ensures |r| == |pre| && forall k :: 0 <= k < |pre| ==> r[k] == IdentText(pre[k])
  {
    if |pre| == 0 then [] else [IdentText(pre[0])] + IdentTexts(pre[1..])
  }

  function Format(v: Version): string
  {
    var core := NatText(v.major) + "." + NatText(v.minor) + "." + NatText(v.patch);
    if |v.pre| == 0 then core else core + "-" + Join(IdentTexts(v.pre), '.')
  }

  // ---------------------------------------------------------------------------
  // Parse inverts Format

  lemma DigitsHaveNo(s: string, c: char)
    requires AllDigits(s) && !IsDigit(c)
    ensures NoSep(s, c)
  {
  }

  lemma {:induction false} FieldsOfJoined(fs: seq<string>, sep: char)
    requires |fs| >= 1
    requires forall i :: 0 <= i < |fs| ==> NoSep(fs[i], sep)
    ensures Fields(Join(fs, sep), sep) == fs
  {
    if |fs| == 1 {
      FieldsOfPlain(fs[0], sep);
    } else {
      FieldsOfJoined(fs[1..], sep);
      FieldsOfJoin(fs[0], sep, Join(fs[1..], sep));
      assert [fs[0]] + fs[1..] == fs;
    }
  }

  lemma IdentRoundTrip(i: Ident)
    requires i.Alphanumeric? ==> |i.text| > 0 && AllIdentChars(i.text) && !AllDigits(i.text)
    ensures ParseIdent(IdentText(i)) == Some(i)
    ensures NoSep(IdentText(i), '.') && NoSep(IdentText(i), '+')
  {
    if i.Numeric? {
      NatTextRoundTrip(i.n);
      DigitsHaveNo(NatText(i.n), '.');
      DigitsHaveNo(NatText(i.n), '+');
    } else {
      assert forall k :: 0 <= k < |i.text| ==> IsIdentChar(i.text[k]);
    }
  }

  lemma {:induction false} IdentsRoundTrip(pre: seq<Ident>)
    requires forall k :: 0 <= k < |pre| ==> pre[k].Alphanumeric? ==>
      |pre[k].text| > 0 && AllIdentChars(pre[k].text) && !AllDigits(pre[k].text)
    ensures ParseIdents(IdentTexts(pre)) == Some(pre)
    ensures forall k :: 0 <= k < |pre| ==> NoSep(IdentTexts(pre)[k], '.') && NoSep(IdentTexts(pre)[k], '+')
  {
    if |pre| > 0 {
      IdentRoundTrip(pre[0]);
      IdentsRoundTrip(pre[1..]);
      var t := IdentTexts(pre);
      assert t[1..] == IdentTexts(pre[1..]);
      assert [pre[0]] + pre[1..] == pre;
      forall k | 0 <= k < |pre|
        ensures NoSep(t[k], '.') && NoSep(t[k], '+')
      {
        if k > 0 { assert t[k] == IdentTexts(pre[1..])[k - 1]; }
      }
    }
  }

  lemma {:induction false} JoinedHasNo(fs: seq<string>, sep: char, c: char)
    requires |fs| >= 1 && sep != c
    requires forall i :: 0 <= i < |fs| ==> NoSep(fs[i], c)
    ensures NoSep(Join(fs, sep), c)
  {
    if |fs| > 1 {
      JoinedHasNo(fs[1..], sep, c);
    }
  }

  lemma CoreRoundTrip(v: Version)
    ensures var core := NatText(v.major) + "." + NatText(v.minor) + "." + NatText(v.patch);
      ParseCore(core) == Some((v.major, v.minor, v.patch)) && NoSep(core, '-') && NoSep(core, '+')
  {
    var a, b, c := NatText(v.major), NatText(v.minor), NatText(v.patch);
    NatTextRoundTrip(v.major);
    NatTextRoundTrip(v.minor);
    NatTextRoundTrip(v.patch);
    DigitsHaveNo(a, '.');
    DigitsHaveNo(b, '.');
    DigitsHaveNo(c, '.');
    FieldsOfPlain(a, '.');
    FieldsSnoc(a, '.', b);
    FieldsSnoc(a + "." + b, '.', c);
    DigitsHaveNo(a, '-');
    DigitsHaveNo(b, '-');
    DigitsHaveNo(c, '-');
    DigitsHaveNo(a, '+');
    DigitsHaveNo(b, '+');
    DigitsHaveNo(c, '+');
  }

  lemma FindAbsent(s: string, c: char)
    requires NoSep(s, c)
    ensures FindChar(s, c) == |s|
  {
    assert forall j :: 0 <= j < |s| ==> s[j] != c;
  }

  lemma ConcatHasNo(a: string, b: string, c: char)
    requires NoSep(a, c) && NoSep(b, c)
    ensures NoSep(a + b, c)
  {
  }

  /** In `core + "-" + tail`, with no dash in `core`, the first dash is the one after `core`. */
  lemma DashAfterCore(core: string, tail: string)
    requires NoSep(core, '-')
    ensures var s := core + "-" + tail;
      FindChar(s, '-') == |core| && s[..|core|] == core && s[|core| + 1..] == tail
  {
    var s := core + "-" + tail;
    assert s[|core|] == '-';
    assert forall j :: 0 <= j < |core| ==> s[j] == core[j];
  }

  lemma ParseFormatRelease(v: Version)
    requires |v.pre| == 0
    ensures Parse(Format(v)) == Some(v)
  {
    CoreRoundTrip(v);
    var s := Format(v);
    FindAbsent(s, '+');
    FindAbsent(s, '-');
    assert s[..|s|] == s;
  }

  lemma ParseFormatPre(v: Version)
    requires |v.pre| > 0 && WellFormed(v)
    ensures Parse(Format(v)) == Some(v)
  {
    var core := NatText(v.major) + "." + NatText(v.minor) + "." + NatText(v.patch);
    CoreRoundTrip(v);
    var texts := IdentTexts(v.pre);
    IdentsRoundTrip(v.pre);
    var tail := Join(texts, '.');
    JoinedHasNo(texts, '.', '+');
    FieldsOfJoined(texts, '.');
    var s := Format(v);
    assert s == core + "-" + tail;
    ConcatHasNo(core, "-", '+');
    ConcatHasNo(core + "-", tail, '+');
    FindAbsent(s, '+');
    assert s[..|s|] == s;
    DashAfterCore(core, tail);
  }

  /** Printing a well-formed version and parsing the text yields the version again. */
  lemma ParseFormat(v: Version)
    requires WellFormed(v)
    ensures Parse(Format(v)) == Some(v)
  {
    if |v.pre| == 0 {
      ParseFormatRelease(v);
    } else {
      ParseFormatPre(v);
    }
  }

  // ---------------------------------------------------------------------------
  // Precedence (Semantic Versioning 2.0.0, section 11)

  function CompareNat(a: nat, b: nat): Order
  {
    if a < b then Less else if a > b then Greater else Same
  }

  /** Numeric identifiers compare numerically and come before alphanumeric ones, which compare as text. */
  function CompareIdent(a: Ident, b: Ident): Order
  {
    match (a, b)
    case (Numeric(x), Numeric(y)) => CompareNat(x, y)
    case (Numeric(_), Alphanumeric(_)) => Less
    case (Alphanumeric(_), Numeric(_)) => Greater
    case (Alphanumeric(x), Alphanumeric(y)) => CompareText(x, y)
  }

  /** Field by field from the left; when all shared fields are equal the shorter list comes first. */
  function ComparePre(a: seq<Ident>, b: seq<Ident>): Order
    decreases |a|
  {
    if |a| == 0 && |b| == 0 then Same
    else if |a| == 0 then Less
    else if |b| == 0 then Greater
    else if CompareIdent(a[0], b[0]) != Same then CompareIdent(a[0], b[0])
    else ComparePre(a[1..], b[1..])
  }

  /** MAJOR, MINOR and PATCH numerically; then a version with a pre-release precedes the one without. */
  function Compare(v: Version, w: Version): Order
  {
    if CompareNat(v.major, w.major) != Same then CompareNat(v.major, w.major)
    else if CompareNat(v.minor, w.minor) != Same then CompareNat(v.minor, w.minor)
    else if CompareNat(v.patch, w.patch) != Same then CompareNat(v.patch, w.patch)
    else if |v.pre| == 0 && |w.pre| == 0 then Same
    else if |v.pre| == 0 then Greater
    else if |w.pre| == 0 then Less
    else ComparePre(v.pre, w.pre)
  }

  lemma CompareIdentProps(a: Ident, b: Ident)
    ensures CompareIdent(b, a) == Flip(CompareIdent(a, b))
    ensures CompareIdent(a, b) == Same <==> a == b
  {
    if a.Alphanumeric? && b.Alphanumeric? {
      CompareTextFlip(a.text, b.text);
      CompareTextSame(a.text, b.text);
    }
  }

  lemma CompareIdentTransitive(a: Ident, b: Ident, c: Ident)
    requires CompareIdent(a, b) == Less && CompareIdent(b, c) == Less
    ensures CompareIdent(a, c) == Less
  {
    if a.Alphanumeric? && b.Alphanumeric? && c.Alphanumeric? {
      CompareTextTransitive(a.text, b.text, c.text);
    }
  }

  lemma {:induction false} ComparePreProps(a: seq<Ident>, b: seq<Ident>)
    ensures ComparePre(b, a) == Flip(ComparePre(a, b))
    ensures ComparePre(a, b) == Same <==> a == b
    decreases |a|
  {
    if |a| > 0 && |b| > 0 {
      CompareIdentProps(a[0], b[0]);
      ComparePreProps(a[1..], b[1..]);
      assert a == [a[0]] + a[1..] && b == [b[0]] + b[1..];
    }
  }

  lemma {:induction false} ComparePreTransitive(a: seq<Ident>, b: seq<Ident>, c: seq<Ident>)
    requires ComparePre(a, b) == Less && ComparePre(b, c) == Less
    ensures ComparePre(a, c) == Less
    decreases |a|
  {
    if |a| > 0 && |b| > 0 && |c| > 0 {
      CompareIdentProps(a[0], b[0]);
      CompareIdentProps(b[0], c[0]);
      CompareIdentProps(a[0], c[0]);
      if CompareIdent(a[0], b[0]) == Same && CompareIdent(b[0], c[0]) == Same {
        ComparePreTransitive(a[1..], b[1..], c[1..]);
      } else if CompareIdent(a[0], b[0]) == Less && CompareIdent(b[0], c[0]) == Less {
        CompareIdentTransitive(a[0], b[0], c[0]);
      }
    }
  }

  /** Precedence is antisymmetric and tells versions apart exactly when they differ. */
  lemma CompareAntisymmetric(v: Version, w: Version)
    ensures Compare(w, v) == Flip(Compare(v, w))
    ensures Compare(v, w) == Same <==> v == w
  {
    ComparePreProps(v.pre, w.pre);
  }

  lemma CompareTransitive(u: Version, v: Version, w: Version)
    requires Compare(u, v) == Less && Compare(v, w) == Less
    ensures Compare(u, w) == Less
  {
    if u.major == v.major == w.major && u.minor == v.minor == w.minor && u.patch == v.patch == w.patch
      && |u.pre| > 0 && |v.pre| > 0 && |w.pre| > 0
    {
      ComparePreTransitive(u.pre, v.pre, w.pre);
    }
  }
}
