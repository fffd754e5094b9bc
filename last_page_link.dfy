/**
 * The pattern `/<.*?&page=(\d+)>; rel="last"/` that the repository card runs
 * over a `Link` header to find the number of the last page.
 *
 * A regular expression without the `g` flag reports its leftmost match, and
 * for that start its lazy `.*?` takes the shortest stretch that lets the rest
 * match. `.` does not cross a line terminator. `\d+` is followed by `>`, so of
 * all its lengths only the whole run of digits can succeed.
 */
module LastPageLink {
  import opened Js

  const PageKey := "&page="
  const RelLast := ">; rel=\"last\""
  const RelNext := ">; rel=\"next\", <"

  predicate IsLineTerminator(c: char) {
    c == '\n' || c == '\r' || c as int == 0x2028 || c as int == 0x2029
  }

  /** No line terminator in `s[a..b]`, so `.*` can stretch over it. */
  predicate NoTerminator(s: string, a: nat, b: nat)
    requires a <= b <= |s|
  {
    forall k :: a <= k < b ==> !IsLineTerminator(s[k])
  }

  /** `t` starts with `&page=`. */
  predicate StartsWithPageKey(t: string) {
    |t| >= 6 && t[0] == '&' && t[1] == 'p' && t[2] == 'a' && t[3] == 'g' && t[4] == 'e' && t[5] == '='
  }

  /** `t` starts with `>; rel="last"`. */
  predicate StartsWithRelLast(t: string) {
    && |t| >= 13 && t[0] == '>' && t[1] == ';' && t[2] == ' ' && t[3] == 'r' && t[4] == 'e'
    && t[5] == 'l' && t[6] == '=' && t[7] == '"' && t[8] == 'l' && t[9] == 'a' && t[10] == 's'
    && t[11] == 't' && t[12] == '"'
  }

  /** The capture when `&page=(\d+)>; rel="last"` matches at the start of `t`. */
  function TailOf(t: string): (d: Option<string>)
    ensures d.Some? ==> d.value != [] && AllDigits(d.value, false) && t != [] && t[0] == '&'
  {
    if StartsWithPageKey(t) then
      var digits := DigitPrefix(t[6..], false);
      if digits != [] && StartsWithRelLast(t[6 + |digits|..]) then Some(digits) else None
    else
      None
  }

  /** The whole pattern matches with `<` at `i` and `&page=` at `j`. */
  predicate Candidate(s: string, i: nat, j: nat) {
    i < j <= |s| && s[i] == '<' && NoTerminator(s, i + 1, j) && TailOf(s[j..]).Some?
  }

  /** A match: where `<` is and where `&page=` is. */
  datatype Match = Match(start: nat, end: nat)

  /**
   * The lazy `.*?` from offset `k` of `t`: the first offset where `&page=...`
   * matches, swallowing one more character each time the tail fails.
   */
  function ScanFrom(t: string, k: nat): (e: Option<nat>)
    requires k <= |t|
    ensures e.Some? ==> k <= e.value <= |t|
    decreases |t| - k
  {
    if TailOf(t[k..]).Some? then Some(k)
    else if k < |t| && !IsLineTerminator(t[k]) then ScanFrom(t, k + 1)
    else None
  }

  /** Try each start position of `s` from `i` on, leftmost first. */
  function FindFrom(s: string, i: nat): (m: Option<Match>)
    requires i <= |s|
    ensures m.Some? ==> i <= m.value.start < m.value.end <= |s|
    decreases |s| - i
  {
    if i == |s| then None
    else if s[i] == '<' && ScanFrom(s, i + 1).Some? then Some(Match(i, ScanFrom(s, i + 1).value))
    else FindFrom(s, i + 1)
  }

  /** `linkHeader.match(...)`: the captured page digits, or None for no match. */
  function LastPage(header: string): (page: Option<string>)
    ensures page.Some? ==> page.value != [] && AllDigits(page.value, false)
  {
    match FindFrom(header, 0)
    case Some(m) => TailOf(header[m.end..])
    case None => None
  }

  lemma {:induction false} ScanFromSpec(t: string, k: nat)
    requires k <= |t|
    ensures ScanFrom(t, k).None? ==>
      forall m :: k <= m <= |t| && NoTerminator(t, k, m) ==> TailOf(t[m..]).None?
    ensures ScanFrom(t, k).Some? ==>
      var e := ScanFrom(t, k).value;
      && TailOf(t[e..]).Some?
      && NoTerminator(t, k, e)
      && forall m :: k <= m < e ==> TailOf(t[m..]).None?
    decreases |t| - k
  {
    if TailOf(t[k..]).None? && k < |t| && !IsLineTerminator(t[k]) {
      ScanFromSpec(t, k + 1);
    }
  }

  /** No candidate at `i` when the search passes over it. */
  lemma NoCandidateAt(s: string, i: nat)
    requires i < |s| && !(s[i] == '<' && ScanFrom(s, i + 1).Some?)
    ensures forall b: nat :: !Candidate(s, i, b)
  {
    if s[i] == '<' {
      ScanFromSpec(s, i + 1);
      forall b: nat | i < b <= |s| && NoTerminator(s, i + 1, b)
        ensures TailOf(s[b..]).None?
      {
      }
    }
  }

  /** No match from `i` on only when no placement of the pattern fits there. */
  lemma {:induction false} FindFromNone(s: string, i: nat)
    requires i <= |s| && FindFrom(s, i).None?
    ensures forall a: nat, b: nat :: i <= a ==> !Candidate(s, a, b)
    decreases |s| - i
  {
    if i < |s| {
      NoCandidateAt(s, i);
      FindFromNone(s, i + 1);
      forall a: nat, b: nat | i <= a
        ensures !Candidate(s, a, b)
      {
      }
    }
  }

  /** A `<` at `i` from which the scan succeeds: the candidate with the shortest `.*?`. */
  lemma LaziestAt(s: string, i: nat)
    requires i < |s| && s[i] == '<' && ScanFrom(s, i + 1).Some?
    ensures Candidate(s, i, ScanFrom(s, i + 1).value)
    ensures forall b: nat :: Candidate(s, i, b) ==> ScanFrom(s, i + 1).value <= b
  {
    ScanFromSpec(s, i + 1);
    var e := ScanFrom(s, i + 1).value;
    forall b: nat | Candidate(s, i, b)
      ensures e <= b
    {
      assert TailOf(s[b..]).Some?;
    }
  }

  /** A match from `i` is a candidate, the leftmost one, and the laziest for its `<`. */
  lemma {:induction false} FindFromSome(s: string, i: nat)
    requires i <= |s| && FindFrom(s, i).Some?
    ensures
      var m := FindFrom(s, i).value;
      && Candidate(s, m.start, m.end)
      && forall a: nat, b: nat :: i <= a && Candidate(s, a, b) ==> m.start < a || (m.start == a && m.end <= b)
    decreases |s| - i
  {
    var m := FindFrom(s, i).value;
    if s[i] == '<' && ScanFrom(s, i + 1).Some? {
      LaziestAt(s, i);
      assert m == Match(i, ScanFrom(s, i + 1).value);
    } else {
      NoCandidateAt(s, i);
      FindFromSome(s, i + 1);
      assert m == FindFrom(s, i + 1).value;
      forall a: nat, b: nat | i <= a && Candidate(s, a, b)
        ensures m.start < a || (m.start == a && m.end <= b)
      {
        assert a != i;
      }
    }
  }

  /**
   * The match found from `i` is the leftmost one, and for its `<` the one with
   * the shortest `.*?`; there is none exactly when no placement of the pattern fits.
   */
  lemma FindFromSpec(s: string, i: nat)
    requires i <= |s|
    ensures FindFrom(s, i).None? <==> forall a: nat, b: nat :: i <= a ==> !Candidate(s, a, b)
    ensures FindFrom(s, i).Some? ==>
      var m := FindFrom(s, i).value;
      && Candidate(s, m.start, m.end)
      && forall a: nat, b: nat :: i <= a && Candidate(s, a, b) ==> m.start < a || (m.start == a && m.end <= b)
  {
    if FindFrom(s, i).Some? {
      FindFromSome(s, i);
    } else {
      FindFromNone(s, i);
    }
  }

  /** `LastPage` reports the capture of the leftmost, laziest match, and None only without one. */
  lemma LastPageSpec(header: string)
    ensures LastPage(header).None? <==> forall a: nat, b: nat :: !Candidate(header, a, b)
    ensures LastPage(header).Some? ==>
      exists a: nat, b: nat :: Candidate(header, a, b) && LastPage(header) == TailOf(header[b..])
        && forall i: nat, j: nat :: Candidate(header, i, j) ==> a < i || (a == i && b <= j)
  {
    FindFromSpec(header, 0);
  }

  /** The whole run of digits before a non-digit is what `\d+` takes. */
  lemma {:induction false} DigitPrefixOfDigits(d: string, rest: string)
    requires AllDigits(d, false)
    requires rest != [] && !IsDecimalDigit(rest[0])
    ensures DigitPrefix(d + rest, false) == d
  {
    if d != [] {
      assert (d + rest)[1..] == d[1..] + rest;
      DigitPrefixOfDigits(d[1..], rest);
    }
  }

  lemma PageKeyStarts(w: string)
    ensures StartsWithPageKey(PageKey + w) && (PageKey + w)[6..] == w
  {
    var t := PageKey + w;
    assert t[..6] == PageKey;
  }

  lemma RelLastStarts()
    ensures StartsWithRelLast(RelLast) && !IsDecimalDigit(RelLast[0])
  {
  }

  /** `&page=N` then `w`: the digits of N are what `\d+` takes, and `w` follows them. */
  lemma PageDigits(d: string, w: string)
    requires d != [] && AllDigits(d, false) && w != [] && !IsDecimalDigit(w[0])
    ensures var t := PageKey + (d + w);
      && StartsWithPageKey(t) && DigitPrefix(t[6..], false) == d && t[6 + |d|..] == w
  {
    PageKeyStarts(d + w);
    DigitPrefixOfDigits(d, w);
    assert (d + w)[|d|..] == w;
  }

  /** `&page=N>; rel="last"` is recognised, with the digits of N captured. */
  lemma TailOfLast(d: string)
    requires d != [] && AllDigits(d, false)
    ensures TailOf(PageKey + (d + RelLast)) == Some(d)
  {
    RelLastStarts();
    PageDigits(d, RelLast);
  }

  /** `&page=N>; rel="next"` is not the last link. */
  lemma TailOfNext(d: string, rest: string)
    requires d != [] && AllDigits(d, false)
    ensures TailOf(PageKey + (d + (RelNext + rest))) == None
  {
    assert (RelNext + rest)[0] == '>' && (RelNext + rest)[8] == 'n';
    PageDigits(d, RelNext + rest);
  }

  /** Text that can neither start `&page=` nor stop `.*?`. */
  predicate Plain(u: string) {
    forall k :: 0 <= k < |u| ==> u[k] != '&' && !IsLineTerminator(u[k])
  }

  lemma PlainDigits(d: string)
    requires AllDigits(d, false)
    ensures Plain(d)
  {
  }

  lemma PlainRelNext()
    ensures Plain("page=") && Plain(RelNext)
  {
  }

  /**
   * The lazy `.*?` read over the text after a `<`: the capture of the
   * shortest stretch after which the tail matches.
   */
  function Lazy(w: string): (d: Option<string>)
    ensures d.Some? ==> d.value != [] && AllDigits(d.value, false)
    decreases |w|
  {
    if TailOf(w).Some? then TailOf(w)
    else if w != [] && !IsLineTerminator(w[0]) then Lazy(w[1..])
    else None
  }

  /** The scan from offset `k` stops where `Lazy` of the rest does, with the same capture. */
  lemma {:induction false} ScanFromLazy(t: string, k: nat)
    requires k <= |t|
    ensures ScanFrom(t, k).Some? <==> Lazy(t[k..]).Some?
    ensures ScanFrom(t, k).Some? ==> TailOf(t[ScanFrom(t, k).value..]) == Lazy(t[k..])
    decreases |t| - k
  {
    if TailOf(t[k..]).None? && k < |t| && !IsLineTerminator(t[k]) {
      assert t[k..][0] == t[k];
      assert t[k..][1..] == t[k + 1..];
      ScanFromLazy(t, k + 1);
    }
  }

  /** Plain text in front changes nothing: `.*?` swallows it. */
  lemma {:induction false} LeadingPlain(u: string, w: string)
    requires Plain(u)
    ensures Lazy(u + w) == Lazy(w)
    decreases |u|
  {
    if u == [] {
      assert u + w == w;
    } else {
      var t := u + w;
      assert t[0] == u[0] && u[0] in u;
      assert t[1..] == u[1..] + w;
      LeadingPlain(u[1..], w);
    }
  }

  lemma DropFirst(a: string, w: string)
    requires a != []
    ensures (a + w)[1..] == a[1..] + w
  {
  }

  /** A header that opens with `<` and whose lazy scan succeeds yields that scan's capture. */
  lemma OpenBracket(s: string)
    requires s != [] && s[0] == '<' && Lazy(s[1..]).Some?
    ensures LastPage(s) == Lazy(s[1..])
  {
    ScanFromLazy(s, 1);
  }

  /**
   * A header with a single link `<url&page=N>; rel="last"`, where the URL
   * holds no `&` (GitHub's "...?per_page=1" does not), yields N.
   */
  lemma SingleLink(header: string, url: string, n: nat)
    requires Plain(url) && header == "<" + (url + (PageKey + (DecimalString(n) + RelLast)))
    ensures LastPage(header) == Some(DecimalString(n))
  {
    var d := DecimalString(n);
    var last := PageKey + (d + RelLast);
    assert header[1..] == url + last;
    LeadingPlain(url, last);
    TailOfLast(d);
    OpenBracket(header);
  }

  /**
   * GitHub's usual header `<url1&page=A>; rel="next", <url2&page=N>; rel="last"`
   * yields N: the first `&page=` is followed by `rel="next"`, so the lazy
   * `.*?` stretches on to the second link.
   */
  lemma NextAndLastLinks(header: string, url1: string, a: nat, url2: string, n: nat)
    requires Plain(url1) && Plain(url2)
    requires header == "<" + (url1 + (PageKey + (DecimalString(a) + (RelNext + (url2 + (PageKey + (DecimalString(n) + RelLast)))))))
    ensures LastPage(header) == Some(DecimalString(n))
  {
    var da := DecimalString(a);
    var dn := DecimalString(n);
    var last := PageKey + (dn + RelLast);
    var after := RelNext + (url2 + last);
    var first := PageKey + (da + after);
    assert header[1..] == url1 + first;
    LeadingPlain(url1, first);
    TailOfNext(da, url2 + last);
    assert first[0] == '&';
    assert PageKey[1..] == "page=";
    DropFirst(PageKey, da + after);
    PlainDigits(da);
    PlainRelNext();
    LeadingPlain("page=", da + after);
    LeadingPlain(da, after);
    LeadingPlain(RelNext, url2 + last);
    LeadingPlain(url2, last);
    TailOfLast(dn);
    OpenBracket(header);
  }
}
