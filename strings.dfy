/**
 * The string operations the Ruby source relies on, written out over `seq<char>`:
 * `String#split` with a one-character separator, `gsub(pattern, '')`, `end_with?`
 * and the byte-wise ordering `String#<=>` that `sort_by(&:to_s)` uses.
 */
module Strings {
  import opened Wrappers

  datatype Order = Less | Same | Greater

  function Flip(o: Order): Order
  {
    match o
    case Less => Greater
    case Same => Same
    case Greater => Less
  }

  predicate NoSep(s: string, sep: char)
  {
    sep !in s
  }

  /** All fields of `s` between occurrences of `sep`, empty ones included (Ruby's `split(sep, -1)`). */
  function Fields(s: string, sep: char): (r: seq<string>)
    ensures |r| >= 1
    decreases |s|
  {
    if |s| == 0 then [""]
    else if s[0] == sep then [""] + Fields(s[1..], sep)
    else
      var t := Fields(s[1..], sep);
      [[s[0]] + t[0]] + t[1..]
  }

  function DropTrailingEmpty(fs: seq<string>): (r: seq<string>)
    ensures |r| <= |fs| && r == fs[..|r|]
    ensures |r| > 0 ==> r[|r| - 1] != ""
    ensures forall i :: |r| <= i < |fs| ==> fs[i] == ""
  {
    if |fs| == 0 then []
    else if fs[|fs| - 1] == "" then DropTrailingEmpty(fs[..|fs| - 1])
    else fs
  }

  /** Ruby's `s.split(sep)`: the fields, with trailing empty fields removed. */
  function Split(s: string, sep: char): (r: seq<string>)
    ensures forall i :: 0 <= i < |r| ==> NoSep(r[i], sep)
    ensures |r| > 0 ==> r[|r| - 1] != ""
    ensures |r| <= |Fields(s, sep)| && r == Fields(s, sep)[..|r|]
    ensures forall i :: |r| <= i < |Fields(s, sep)| ==> Fields(s, sep)[i] == ""
  {
    FieldsFree(s, sep);
    DropTrailingEmpty(Fields(s, sep))
  }

  lemma {:induction false} FieldsOfPlain(a: string, sep: char)
    requires NoSep(a, sep)
    ensures Fields(a, sep) == [a]
    decreases |a|
  {
    if |a| > 0 {
      assert NoSep(a[1..], sep) by { assert forall i :: 0 <= i < |a[1..]| ==> a[1..][i] == a[i + 1]; }
      FieldsOfPlain(a[1..], sep);
      assert [a[0]] + a[1..] == a;
    }
  }

  lemma {:induction false} FieldsOfJoin(a: string, sep: char, rest: string)
    requires NoSep(a, sep)
    ensures Fields(a + [sep] + rest, sep) == [a] + Fields(rest, sep)
    decreases |a|
  {
    var s := a + [sep] + rest;
    if |a| == 0 {
      assert s[1..] == rest;
    } else {
      assert s[0] == a[0] && s[0] != sep;
      assert s[1..] == a[1..] + [sep] + rest;
      assert NoSep(a[1..], sep) by { assert forall i :: 0 <= i < |a[1..]| ==> a[1..][i] == a[i + 1]; }
      FieldsOfJoin(a[1..], sep, rest);
      assert [a[0]] + a[1..] == a;
    }
  }

  lemma {:induction false} FieldsFree(s: string, sep: char)
    ensures forall i :: 0 <= i < |Fields(s, sep)| ==> NoSep(Fields(s, sep)[i], sep)
    decreases |s|
  {
    if |s| > 0 {
      FieldsFree(s[1..], sep);
      var t := Fields(s[1..], sep);
      if s[0] != sep {
        assert NoSep([s[0]] + t[0], sep);
      }
    }
  }

  /** Putting a character that is not the separator in front of the first field. */
  lemma JoinCons(ch: char, t: seq<string>, sep: char)
    requires |t| >= 1
    ensures Join([[ch] + t[0]] + t[1..], sep) == [ch] + Join(t, sep)
  {
    var r := [[ch] + t[0]] + t[1..];
    if |t| > 1 {
      assert r[1..] == t[1..];
      var j := Join(t[1..], sep);
      assert Join(r, sep) == ([ch] + t[0]) + [sep] + j;
      assert ([ch] + t[0]) + [sep] + j == [ch] + (t[0] + [sep] + j);
    }
  }

  lemma {:induction false} FieldsJoinBack(s: string, sep: char)
    ensures Join(Fields(s, sep), sep) == s
    decreases |s|
  {
    if |s| > 0 {
      FieldsJoinBack(s[1..], sep);
      var t := Fields(s[1..], sep);
      if s[0] == sep {
        assert Join([""] + t, sep) == "" + [sep] + Join(t, sep);
      } else {
        JoinCons(s[0], t, sep);
      }
      assert s == [s[0]] + s[1..];
    }
  }

  /** A separator and a plain field appended to `p` add that one field at the end. */
  lemma {:induction false} FieldsSnoc(p: string, sep: char, x: string)
    requires NoSep(x, sep)
    ensures Fields(p + [sep] + x, sep) == Fields(p, sep) + [x]
    decreases |p|
  {
    var s := p + [sep] + x;
    if |p| == 0 {
      assert s[1..] == x;
      FieldsOfPlain(x, sep);
    } else {
      assert s[0] == p[0] && s[1..] == p[1..] + [sep] + x;
      FieldsSnoc(p[1..], sep, x);
      var u := Fields(p[1..], sep);
      if p[0] == sep {
        AppendAssoc([""], u, [x]);
      } else {
        var t := u + [x];
        assert t[0] == u[0] && t[1..] == u[1..] + [x];
        AppendAssoc([[p[0]] + u[0]], u[1..], [x]);
      }
    }
  }

  /** Every field is free of the separator, and joining the fields with it gives back `s`. */
  lemma FieldsJoin(s: string, sep: char)
    ensures forall i :: 0 <= i < |Fields(s, sep)| ==> NoSep(Fields(s, sep)[i], sep)
    ensures Join(Fields(s, sep), sep) == s
  {
    FieldsFree(s, sep);
    FieldsJoinBack(s, sep);
  }

  function Join(fs: seq<string>, sep: char): string
    requires |fs| >= 1
  {
    if |fs| == 1 then fs[0] else fs[0] + [sep] + Join(fs[1..], sep)
  }

  /** The second element of `s.split(sep)`, read as Ruby interpolates it: `nil` becomes "". */
  function SecondField(s: string, sep: char): string
  {
    var f := Split(s, sep);
    if |f| > 1 then f[1] else ""
  }

  /** For `"/" + seg + "/" + rest` with no separator in `seg`, `split("/")[1]` is `seg`. */
  lemma SecondFieldOfLink(seg: string, rest: string)
    requires NoSep(seg, '/')
    ensures SecondField("/" + seg + "/" + rest, '/') == seg
  {
    var s := "/" + seg + "/" + rest;
    assert s == "" + ['/'] + (seg + ['/'] + rest);
    FieldsOfJoin("", '/', seg + ['/'] + rest);
    FieldsOfJoin(seg, '/', rest);
    var fs := Fields(s, '/');
    assert fs == ["", seg] + Fields(rest, '/');
    var r := DropTrailingEmpty(fs);
    if |r| <= 1 {
      assert fs[1] == "";
    } else {
      assert r[1] == fs[1];
    }
  }

  predicate StartsWith(s: string, p: string)
  {
    |p| <= |s| && s[..|p|] == p
  }

  predicate EndsWith(s: string, suffix: string)
  {
    |suffix| <= |s| && s[|s| - |suffix|..] == suffix
  }

  /** `p` occurs somewhere in `s` (`s.include?(p)`). */
  predicate Occurs(p: string, s: string)
    decreases |s|
  {
    StartsWith(s, p) || (|s| > 0 && Occurs(p, s[1..]))
  }

  /** `s.gsub(p, '')`: every non-overlapping occurrence of `p`, scanning from the left, removed. */
  function DeleteAll(s: string, p: string): (r: string)
    requires |p| > 0
    ensures |r| <= |s|
    ensures StartsWith(s, p) ==> |r| <= |s| - |p|
    decreases |s|
  {
    if |s| == 0 then ""
    else if StartsWith(s, p) then DeleteAll(s[|p|..], p)
    else [s[0]] + DeleteAll(s[1..], p)
  }

  lemma {:induction false} DeleteAllAbsent(s: string, p: string)
    requires |p| > 0 && !Occurs(p, s)
    ensures DeleteAll(s, p) == s
    decreases |s|
  {
    if |s| > 0 {
      DeleteAllAbsent(s[1..], p);
      assert [s[0]] + s[1..] == s;
    }
  }

  /**
   * Removing the pattern from a string that starts with it and has no further occurrence
   * leaves exactly the remainder.
   */
  lemma DeleteAllPrefix(p: string, rest: string)
    requires |p| > 0 && !Occurs(p, rest)
    ensures DeleteAll(p + rest, p) == rest
  {
    var s := p + rest;
    assert s[..|p|] == p;
    assert s[|p|..] == rest;
    DeleteAllAbsent(rest, p);
  }

  /** Lexicographic comparison by character code, a proper prefix coming first (`String#<=>`). */
  function CompareText(a: string, b: string): Order
    decreases |a|
  {
    if |a| == 0 && |b| == 0 then Same
    else if |a| == 0 then Less
    else if |b| == 0 then Greater
    else if a[0] < b[0] then Less
    else if a[0] > b[0] then Greater
    else CompareText(a[1..], b[1..])
  }

  lemma {:induction false} CompareTextFlip(a: string, b: string)
    ensures CompareText(b, a) == Flip(CompareText(a, b))
    decreases |a|
  {
    if |a| > 0 && |b| > 0 && a[0] == b[0] {
      CompareTextFlip(a[1..], b[1..]);
    }
  }

  lemma {:induction false} CompareTextSame(a: string, b: string)
    ensures CompareText(a, b) == Same <==> a == b
    decreases |a|
  {
    if |a| > 0 && |b| > 0 && a[0] == b[0] {
      CompareTextSame(a[1..], b[1..]);
      assert a == [a[0]] + a[1..] && b == [b[0]] + b[1..];
    }
  }

  lemma {:induction false} CompareTextTransitive(a: string, b: string, c: string)
    requires CompareText(a, b) == Less && CompareText(b, c) == Less
    ensures CompareText(a, c) == Less
    decreases |a|
  {
    if |a| > 0 && |b| > 0 && |c| > 0 && a[0] == b[0] && b[0] == c[0] {
      CompareTextTransitive(a[1..], b[1..], c[1..]);
    }
  }

  /** `a` sorts no later than `b` under `String#<=>`. */
  predicate TextLe(a: string, b: string)
  {
    CompareText(a, b) != Greater
  }

  lemma TextLeTotal(a: string, b: string)
    ensures TextLe(a, b) || TextLe(b, a)
  {
    CompareTextFlip(a, b);
  }

  lemma TextLeTransitive(a: string, b: string, c: string)
    requires TextLe(a, b) && TextLe(b, c)
    ensures TextLe(a, c)
  {
    CompareTextSame(a, b);
    CompareTextSame(b, c);
    if CompareText(a, b) == Less && CompareText(b, c) == Less {
      CompareTextTransitive(a, b, c);
    }
  }
}
