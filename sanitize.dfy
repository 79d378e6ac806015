/** `sanitize_filename` (downloader.py): reserved characters become `_`,
    non-printable characters are dropped, and surrounding whitespace is
    stripped. */
module Sanitize {
  import opened Text

  /** The nine reserved characters: backslash, slash, star, question mark,
      colon, double quote, less-than, greater-than and bar. */
  const Reserved: string := "\\/*?:\"<>|"

  /** Python's `str.isprintable` for one character: false for control,
      format, private-use and separator characters other than the space. */
  predicate IsPrintable(c: char) {
    !(|| c <= '\U{1f}' || ('\U{7f}' <= c <= '\U{a0}') || c == '\U{ad}'
      || ('\U{600}' <= c <= '\U{605}') || c == '\U{61c}' || c == '\U{6dd}' || c == '\U{70f}'
      || c == '\U{1680}' || c == '\U{180e}' || ('\U{2000}' <= c <= '\U{200f}')
      || ('\U{2028}' <= c <= '\U{202f}') || ('\U{205f}' <= c <= '\U{2064}')
      || ('\U{2066}' <= c <= '\U{206f}') || c == '\U{3000}'
      || ('\U{e000}' <= c <= '\U{f8ff}') || c == '\U{feff}' || ('\U{fff9}' <= c <= '\U{fffb}')
      || ('\U{f0000}' <= c))
  }

  /** Every whitespace character that `strip` would remove, except the plain
      space, is already dropped as non-printable. */
  lemma SpaceNotPrintable(c: char)
    requires IsSpace(c) && c != ' '
    ensures !IsPrintable(c)
  {
  }

  /** A file name as `sanitize_filename` leaves it. */
  predicate IsClean(s: string) {
    && (forall i :: 0 <= i < |s| ==> s[i] !in Reserved && IsPrintable(s[i]))
    && IsStripped(s)
  }

  /** Step 1, the `re.sub` that turns each reserved character into `_`. */
  function ReplaceReserved(s: string): (r: string)
    ensures |r| == |s|
    ensures forall i :: 0 <= i < |s| ==> r[i] == (if s[i] in Reserved then '_' else s[i])
  {
    seq(|s|, i requires 0 <= i < |s| => if s[i] in Reserved then '_' else s[i])
  }

  /** Step 2, `"".join(x for x in s if x.isprintable())`. */
  function KeepPrintable(s: string): (r: string)
    ensures |r| <= |s|
    ensures forall i :: 0 <= i < |r| ==> IsPrintable(r[i])
    ensures forall c :: c in r <==> c in s && IsPrintable(c)
    ensures (forall i :: 0 <= i < |s| ==> IsPrintable(s[i])) ==> r == s
  {
    FilterFacts(s, IsPrintable);
    Filter(s, IsPrintable)
  }

  /** The characters of `s` that `keep` accepts, in order. */
  function Filter(s: string, keep: char -> bool): string {
    if s == [] then [] else (if keep(s[0]) then [s[0]] else []) + Filter(s[1..], keep)
  }

  lemma {:induction false} FilterFacts(s: string, keep: char -> bool)
    ensures |Filter(s, keep)| <= |s|
    ensures forall i :: 0 <= i < |Filter(s, keep)| ==> keep(Filter(s, keep)[i])
    ensures forall c :: c in Filter(s, keep) <==> c in s && keep(c)
    ensures (forall i :: 0 <= i < |s| ==> keep(s[i])) ==> Filter(s, keep) == s
  {
    if s != [] {
      FilterFacts(s[1..], keep);
      assert s == [s[0]] + s[1..];
    }
  }

  /** The filter keeps order: filtering a concatenation filters each part. */
  lemma KeepPrintableAppend(a: string, b: string)
    ensures KeepPrintable(a + b) == KeepPrintable(a) + KeepPrintable(b)
  {
    FilterAppend(a, b, IsPrintable);
  }

  lemma {:induction false} FilterAppend(a: string, b: string, keep: char -> bool)
    ensures Filter(a + b, keep) == Filter(a, keep) + Filter(b, keep)
  {
    if a == [] {
      assert a + b == b;
    } else {
      var head := if keep(a[0]) then [a[0]] else [];
      assert (a + b)[0] == a[0] && (a + b)[1..] == a[1..] + b;
      FilterAppend(a[1..], b, keep);
      calc {
        Filter(a + b, keep);
        head + Filter(a[1..] + b, keep);
        head + (Filter(a[1..], keep) + Filter(b, keep));
        (head + Filter(a[1..], keep)) + Filter(b, keep);
        Filter(a, keep) + Filter(b, keep);
      }
    }
  }

  function SanitizeFilename(s: string): (r: string)
    ensures IsClean(r)
    ensures |r| <= |s|
  {
    var printable := KeepPrintable(ReplaceReserved(s));
    assert forall i :: 0 <= i < |printable| ==> printable[i] !in Reserved by {
      assert forall c :: c in ReplaceReserved(s) ==> c !in Reserved;
    }
    StripKeepsCharacters(printable);
    Strip(printable)
  }

  /** What survives: every character of the result is an input character or
      the `_` standing for a reserved one; every printable, non-reserved,
      non-whitespace input character is kept; and a reserved character in
      the input leaves a `_` in the result. */
  lemma SanitizeKeeps(s: string)
    ensures var r := SanitizeFilename(s);
      && (forall c :: c in r && c != '_' ==> c in s)
      && (forall c :: c in s && IsPrintable(c) && c !in Reserved && !IsSpace(c) ==> c in r)
      && ((exists i :: 0 <= i < |s| && s[i] in Reserved) ==> '_' in r)
  {
    SanitizeAddsNothing(s);
    forall c | c in s && IsPrintable(c) && c !in Reserved && !IsSpace(c) ensures c in SanitizeFilename(s) {
      SanitizeKeepsVisible(s, c);
    }
    if exists i :: 0 <= i < |s| && s[i] in Reserved {
      var i :| 0 <= i < |s| && s[i] in Reserved;
      SanitizeMarksReserved(s, i);
    }
  }

  /** Every character of the result other than `_` was in the input. */
  lemma SanitizeAddsNothing(s: string)
    ensures forall c :: c in SanitizeFilename(s) && c != '_' ==> c in s
  {
    var replaced := ReplaceReserved(s);
    var printable := KeepPrintable(replaced);
    var r := SanitizeFilename(s);
    SanitizeIsStrip(s);
    StripKeepsCharacters(printable);
    forall c | c in r && c != '_' ensures c in s {
      assert c in printable;
      var i :| 0 <= i < |replaced| && replaced[i] == c;
      assert s[i] == c;
    }
  }

  /** A printable, non-reserved, non-whitespace input character is kept. */
  lemma SanitizeKeepsVisible(s: string, c: char)
    requires c in s && IsPrintable(c) && c !in Reserved && !IsSpace(c)
    ensures c in SanitizeFilename(s)
  {
    var replaced := ReplaceReserved(s);
    var printable := KeepPrintable(replaced);
    SanitizeIsStrip(s);
    var i :| 0 <= i < |s| && s[i] == c;
    assert replaced[i] == c;
    StripKeepsNonSpace(printable, c);
  }

  /** A reserved input character leaves a `_` in the result. */
  lemma SanitizeMarksReserved(s: string, i: nat)
    requires i < |s| && s[i] in Reserved
    ensures '_' in SanitizeFilename(s)
  {
    ReservedBecomesPrintableMark(s, i);
    StripKeepsNonSpace(KeepPrintable(ReplaceReserved(s)), '_');
    SanitizeIsStrip(s);
  }

  lemma ReservedBecomesPrintableMark(s: string, i: nat)
    requires i < |s| && s[i] in Reserved
    ensures '_' in KeepPrintable(ReplaceReserved(s))
  {
    var replaced := ReplaceReserved(s);
    assert replaced[i] == '_';
    assert IsPrintable('_');
  }

  lemma SanitizeIsStrip(s: string)
    ensures SanitizeFilename(s) == Strip(KeepPrintable(ReplaceReserved(s)))
  {
  }

  /** Sanitising a sanitised name changes nothing. */
  lemma SanitizeIdempotent(s: string)
    ensures SanitizeFilename(SanitizeFilename(s)) == SanitizeFilename(s)
  {
    CleanIsFixed(SanitizeFilename(s));
  }

  /** The names `sanitize_filename` leaves unchanged are exactly the clean ones. */
  lemma SanitizeFixedPoints(s: string)
    ensures SanitizeFilename(s) == s <==> IsClean(s)
  {
    if IsClean(s) {
      CleanIsFixed(s);
    }
  }

  lemma CleanIsFixed(s: string)
    requires IsClean(s)
    ensures SanitizeFilename(s) == s
  {
    assert ReplaceReserved(s) == s;
    assert KeepPrintable(s) == s;
    StrippedIsFixed(s);
  }
}
