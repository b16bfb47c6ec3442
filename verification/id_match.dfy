/** The installer's hardware-ID matching: classifying an ID argument
    (`GetIdType`), matching one ID against it (`WildCardMatch`) and searching
    a null-terminated ID array (`WildCompareHwIds`). Strings are C strings
    without their terminating NUL; pointers into a string are indices. */
module IdMatch {
  import opened Common
  import opened Glob

  /** Prefix marking an instance ID rather than a hardware ID. */
  const InstanceIdPrefix: char := '@'
  /** Prefix asking for the rest of the ID to be taken literally. */
  const QuotePrefix: char := '\''

  /** A classified ID argument: the text to compare, the index of its first
      `*` when wildcards apply, and whether it names an instance ID. */
  datatype IdEntry = IdEntry(str: string, wild: Option<nat>, instanceId: bool)

  /** The shape `GetIdType` gives every entry: `wild`, when present, is the
      first `*` of `str`. */
  predicate ValidEntry(e: IdEntry) {
    e.wild.Some? ==>
      e.wild.value < |e.str| && e.str[e.wild.value] == Wild && Wild !in e.str[..e.wild.value]
  }

  /** What an entry is meant to match: without a wildcard, the string itself
      ignoring case; with one, the case-insensitive glob. */
  predicate Matches(item: string, e: IdEntry) {
    if e.wild.None? then SameI(item, e.str) else GlobMatch(item, e.str)
  }

  /** `_tcschr`: the index of the first `c` in `s`. */
  function StrChr(s: string, c: char): (r: Option<nat>)
    ensures r.Some? ==> r.value < |s| && s[r.value] == c && c !in s[..r.value]
    ensures r.None? ==> c !in s
  {
    if |s| == 0 then None
    else if s[0] == c then Some(0)
    else match StrChr(s[1..], c)
      case None => None
      case Some(i) => Some(i + 1)
  }

  function Min(a: nat, b: nat): nat {
    if a <= b then a else b
  }

  /** `_tcsnicmp(a, b, n) == 0`: at most `n` characters compared ignoring
      case, a string that ends first comparing as its terminating NUL. */
  predicate StrNICmpEq(a: string, b: string, n: nat) {
    SameI(a[..Min(n, |a|)], b[..Min(n, |b|)])
  }

  /** GetIdType: a leading `@` marks an instance ID and is skipped; then a
      leading quote is skipped and switches wildcards off, otherwise the
      first `*` (if any) is recorded. */
  function GetIdType(id: string): (e: IdEntry)
    ensures ValidEntry(e)
    ensures e.instanceId <==> |id| > 0 && id[0] == InstanceIdPrefix
    ensures var rest := if e.instanceId then id[1..] else id;
            if |rest| > 0 && rest[0] == QuotePrefix then e.str == rest[1..] && e.wild.None?
            else e.str == rest && (e.wild.None? <==> Wild !in rest)
  {
    var instance := |id| > 0 && id[0] == InstanceIdPrefix;
    var rest := if instance then id[1..] else id;
    if |rest| > 0 && rest[0] == QuotePrefix then IdEntry(rest[1..], None, instance)
    else IdEntry(rest, StrChr(rest, Wild), instance)
  }

  /** Scan from `from` for the first character equal to `c` ignoring case:
      for a letter, for either of its cases; otherwise with `_tcschr`. */
  method ScanFor(item: string, from: nat, c: char) returns (found: bool, at: nat)
    requires from <= |item|
    ensures found ==> from <= at < |item| && EqI(item[at], c)
    ensures forall k :: from <= k < (if found then at else |item|) ==> !EqI(item[k], c)
  {
    if IsAlpha(c) {
      var u := ToUpper(c);
      var l := ToLower(c);
      at := from;
      while at < |item| && item[at] != u && item[at] != l
        invariant from <= at <= |item|
        invariant forall k :: from <= k < at ==> !EqI(item[k], c)
      {
        FoldClass(c, item[at]);
        at := at + 1;
      }
      found := at < |item|;
      if found {
        FoldClass(c, item[at]);
      }
    } else {
      var r := StrChr(item[from..], c);
      found := r.Some?;
      at := if found then from + r.value else 0;
      forall k | from <= k < (if found then at else |item|) ensures !EqI(item[k], c) {
        assert item[k] == item[from..][k - from];
        FoldClass(c, item[k]);
      }
      if found {
        FoldClass(c, item[at]);
      }
    }
  }

  /** The last portion of the pattern (no `*` left): it must end the item. */
  method MatchLast(item: string, pat: string, wildMark: nat, scanItem: nat) returns (r: bool)
    requires wildMark < |pat| && scanItem <= |item|
    requires Wild !in pat[wildMark..]
    ensures r <==> Anywhere(item[scanItem..], pat[wildMark..])
  {
    var scanlen := |item| - scanItem;
    var matchlen := |pat| - wildMark;
    AnywhereLiteral(item[scanItem..], pat[wildMark..]);
    if scanlen < matchlen {
      return false;
    }
    assert item[scanItem..][scanlen - matchlen..] == item[scanItem + scanlen - matchlen..];
    r := SameI(item[scanItem + scanlen - matchlen..], pat[wildMark..]);
  }

  /** One attempt at a middle segment `pat[wildMark..wildMark+matchlen]`,
      which is followed by a `*`: scan to the first place its first
      character occurs, then either stop (the item ran out), step one
      character on (the segment differs there) or consume the segment. */
  method MatchMiddle(item: string, pat: string, wildMark: nat, scanItem: nat, matchlen: nat)
    returns (done: bool, r: bool, wildMark': nat, scanItem': nat)
    requires scanItem <= |item|
    requires 0 < matchlen && wildMark + matchlen < |pat|
    requires Wild !in pat[wildMark..wildMark + matchlen] && pat[wildMark + matchlen] == Wild
    ensures done ==> (r <==> Anywhere(item[scanItem..], pat[wildMark..]))
    ensures scanItem' <= |item| && wildMark' <= |pat|
    ensures !done ==> (wildMark < wildMark' || (wildMark' == wildMark && scanItem < scanItem'))
    ensures !done ==> (Anywhere(item[scanItem'..], pat[wildMark'..]) <==> Anywhere(item[scanItem..], pat[wildMark..]))
  {
    assert pat[wildMark..][0] == pat[wildMark];
    var found, at := ScanFor(item, scanItem, pat[wildMark]);
    if !found {
      // ran out of string
      ShiftToFound(item, scanItem, |item|, pat[wildMark..]);
      NothingLeft(item[|item|..], pat[wildMark..]);
      return true, false, wildMark, scanItem;
    }
    ShiftToFound(item, scanItem, at, pat[wildMark..]);
    if !StrNICmpEq(item[at..], pat[wildMark..], matchlen) {
      // no match here, try again one character on
      SegmentDiffers(item, at, pat, wildMark, matchlen);
      return false, false, wildMark, at + 1;
    }
    // the segment matched: continue after it, at its trailing `*`
    SegmentConsumed(item, at, pat, wildMark, matchlen);
    return false, false, wildMark + matchlen, at + matchlen;
  }

  /** No occurrence of the pattern's first (literal) character before `at`:
      a match can only start at or after `at`. */
  lemma ShiftToFound(item: string, s: nat, at: nat, p: string)
    requires s <= at <= |item| && |p| > 0 && p[0] != Wild
    requires forall k :: s <= k < at ==> !EqI(item[k], p[0])
    ensures Anywhere(item[s..], p) <==> Anywhere(item[at..], p)
  {
    forall k | 0 <= k < at - s
      ensures !EqI(item[s..][k], p[0])
    {
      assert item[s..][k] == item[s + k];
    }
    AnywhereSkip(item[s..], at - s, p);
    assert item[s..][at - s..] == item[at..];
  }

  /** An exhausted item holds no match of a pattern opening with a
      literal character. */
  lemma NothingLeft(x: string, p: string)
    requires x == [] && |p| > 0 && p[0] != Wild
    ensures !Anywhere(x, p)
  {
    assert x[0..] == [];
  }

  /** The segment differs at `at`, so a match must start further on. */
  lemma SegmentDiffers(item: string, at: nat, pat: string, wildMark: nat, matchlen: nat)
    requires at < |item| && 0 < matchlen && wildMark + matchlen < |pat|
    requires Wild !in pat[wildMark..wildMark + matchlen] && pat[wildMark + matchlen] == Wild
    requires !StrNICmpEq(item[at..], pat[wildMark..], matchlen)
    ensures Anywhere(item[at..], pat[wildMark..]) <==> Anywhere(item[at + 1..], pat[wildMark..])
  {
    var seg, rest := pat[wildMark..wildMark + matchlen], pat[wildMark + matchlen..];
    assert pat[wildMark..] == seg + rest;
    assert pat[wildMark..][..matchlen] == seg;
    LiteralThen(item[at..], seg, rest);
    AnywhereAdvance(item[at..], seg + rest);
    assert item[at..][1..] == item[at + 1..];
  }

  /** The segment matches at `at`: the search goes on after it, from its
      trailing `*`. */
  lemma SegmentConsumed(item: string, at: nat, pat: string, wildMark: nat, matchlen: nat)
    requires at <= |item| && 0 < matchlen && wildMark + matchlen < |pat|
    requires Wild !in pat[wildMark..wildMark + matchlen] && pat[wildMark + matchlen] == Wild
    requires StrNICmpEq(item[at..], pat[wildMark..], matchlen)
    ensures at + matchlen <= |item|
    ensures Anywhere(item[at..], pat[wildMark..]) <==> Anywhere(item[at + matchlen..], pat[wildMark + matchlen..])
  {
    var seg, rest := pat[wildMark..wildMark + matchlen], pat[wildMark + matchlen..];
    assert pat[wildMark..] == seg + rest;
    assert pat[wildMark..][..matchlen] == seg;
    assert |item[at..]| >= matchlen;
    AnywhereSegment(item[at..], seg, rest);
    assert item[at..][matchlen..] == item[at + matchlen..];
    assert rest == [Wild] + rest[1..];
    StarAnywhere(item[at + matchlen..], rest[1..]);
    AnywhereStar(item[at + matchlen..], rest[1..]);
  }

  /** A pattern whose first `*` is at `w` matches exactly when the item
      starts with `pat[..w]` and the remainder matches `pat[w..]` somewhere. */
  lemma PrefixThenAnywhere(item: string, pat: string, w: nat)
    requires w < |pat| && pat[w] == Wild && Wild !in pat[..w]
    ensures GlobMatch(item, pat) <==>
              |item| >= w && StrNICmpEq(item, pat, w) && Anywhere(item[w..], pat[w..])
  {
    assert pat == pat[..w] + pat[w..];
    LiteralThen(item, pat[..w], pat[w..]);
    assert pat[w..] == [Wild] + pat[w + 1..];
    if |item| >= w {
      StarAnywhere(item[w..], pat[w + 1..]);
      AnywhereStar(item[w..], pat[w + 1..]);
    }
  }

  /** Skipping a `*` of the pattern does not change where it can match. */
  lemma SkipStar(x: string, pat: string, i: nat)
    requires i < |pat| && pat[i] == Wild
    ensures Anywhere(x, pat[i..]) <==> Anywhere(x, pat[i + 1..])
  {
    assert pat[i..] == [Wild] + pat[i + 1..];
    AnywhereStar(x, pat[i + 1..]);
  }

  /** WildCardMatch: compare the literal prefix, then find each star-free
      middle segment at its leftmost place, and finally require the last
      segment to end the item. It answers exactly the glob meaning of the
      entry. */
  method WildCardMatch(item: string, entry: IdEntry) returns (matched: bool)
    requires ValidEntry(entry)
    ensures matched <==> Matches(item, entry)
  {
    if entry.wild.None? {
      return SameI(item, entry.str);
    }
    var pat := entry.str;
    var w := entry.wild.value;
    PrefixThenAnywhere(item, pat, w);
    if !StrNICmpEq(item, pat, w) {
      return false;
    }
    assert w <= |item|;

    var wildMark: nat := w;
    var scanItem: nat := w;
    while wildMark < |pat|
      invariant w <= wildMark <= |pat|
      invariant scanItem <= |item|
      invariant GlobMatch(item, pat) <==> Anywhere(item[scanItem..], pat[wildMark..])
      decreases |pat| - wildMark, |item| - scanItem
    {
      if pat[wildMark] == Wild {
        // skip wild characters
        SkipStar(item[scanItem..], pat, wildMark);
        wildMark := wildMark + 1;
        continue;
      }
      var nextWild := StrChr(pat[wildMark..], Wild);
      if nextWild.None? {
        matched := MatchLast(item, pat, wildMark, scanItem);
        return;
      }
      var matchlen := nextWild.value;
      assert pat[wildMark..wildMark + matchlen] == pat[wildMark..][..matchlen];
      var done, r;
      done, r, wildMark, scanItem := MatchMiddle(item, pat, wildMark, scanItem, matchlen);
      if done {
        return r;
      }
    }
    AnywhereEmpty(item[scanItem..]);
    return true;
  }

  /** Index `i` of a null-terminated array lies before its first null. */
  predicate BeforeNull(a: seq<Option<string>>, i: int) {
    0 <= i < |a| && forall j :: 0 <= j <= i ==> a[j].Some?
  }

  /** WildCompareHwIds: some string of the null-terminated array matches the
      entry; a missing array matches nothing. */
  method WildCompareHwIds(ids: Option<seq<Option<string>>>, entry: IdEntry) returns (found: bool)
    requires ValidEntry(entry)
    requires ids.Some? ==> exists n :: 0 <= n < |ids.value| && ids.value[n].None?
    ensures found <==>
              ids.Some? && exists i :: BeforeNull(ids.value, i) && Matches(ids.value[i].value, entry)
  {
    if ids.None? {
      return false;
    }
    var a := ids.value;
    var i := 0;
    while a[i].Some?
      invariant 0 <= i < |a|
      invariant forall j :: 0 <= j < i ==> a[j].Some? && !Matches(a[j].value, entry)
      invariant exists n :: i <= n < |a| && a[n].None?
      decreases |a| - i
    {
      var m := WildCardMatch(a[i].value, entry);
      if m {
        assert BeforeNull(a, i);
        return true;
      }
      i := i + 1;
    }
    forall k | BeforeNull(a, k) ensures !Matches(a[k].value, entry) {
      assert k < i;
    }
    return false;
  }

  /** The text an ID argument is compared with, once an instance-ID `@` is
      stripped. */
  function Body(id: string): string {
    if |id| > 0 && id[0] == InstanceIdPrefix then id[1..] else id
  }

  /** What an ID argument means: a quoted body is compared literally
      (ignoring case) and any other body is a case-insensitive glob, whether
      or not it holds a `*`. */
  lemma IdMeaning(item: string, id: string)
    ensures var b := Body(id);
            Matches(item, GetIdType(id)) <==>
              if |b| > 0 && b[0] == QuotePrefix then SameI(item, b[1..]) else GlobMatch(item, b)
  {
    var b := Body(id);
    if !(|b| > 0 && b[0] == QuotePrefix) && Wild !in b {
      Literal(item, b);
    }
  }

  /** The argument `*` matches every ID. */
  lemma StarMatchesEveryId(item: string)
    ensures Matches(item, GetIdType("*"))
  {
    StarMatchesAll(item);
  }

  /** A quote switches the wildcard off: `'*` matches only the ID `*`. */
  lemma QuotedStarIsLiteral(item: string)
    ensures Matches(item, GetIdType("'*")) <==> item == "*"
  {
    assert GetIdType("'*").str == "*";
    if SameI(item, "*") {
      assert EqI(item[0], '*');
      FoldClass('*', item[0]);
    }
  }
}
