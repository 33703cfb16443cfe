/** Case normalisation of NUL-terminated character buffers, as done by
    `tolowerstr` and `toupperstr` in efuse_control.c: every character before
    the first NUL is passed through `tolower`/`toupper` of the C locale
    (only the ASCII letters change), the NUL and whatever follows it is left
    alone. */
module CString {

  const NUL: char := '\0'

  /** The text of a C string: the characters before its terminating NUL. */
  type CText = s: string | NUL !in s

  predicate IsLower(c: char) { 'a' <= c <= 'z' }
  predicate IsUpper(c: char) { 'A' <= c <= 'Z' }

  /** `toupper` in the C locale. */
  function ToUpper(c: char): (r: char)
    ensures !IsLower(r)
    ensures IsLower(c) ==> IsUpper(r) && c as int - r as int == 'a' as int - 'A' as int
    ensures !IsLower(c) ==> r == c
  {
    if IsLower(c) then (c as int - 'a' as int + 'A' as int) as char else c
  }

  /** `tolower` in the C locale. */
  function ToLower(c: char): (r: char)
    ensures !IsUpper(r)
    ensures IsUpper(c) ==> IsLower(r) && r as int - c as int == 'a' as int - 'A' as int
    ensures !IsUpper(c) ==> r == c
  {
    if IsUpper(c) then (c as int - 'A' as int + 'a' as int) as char else c
  }

  /** Upper- and lower-casing are inverse on the letters they change. A
      property of the two case maps only: the program never applies both. */
  lemma CaseRoundTrip(c: char)
    ensures IsLower(c) ==> ToLower(ToUpper(c)) == c
    ensures IsUpper(c) ==> ToUpper(ToLower(c)) == c
    ensures ToLower(ToUpper(c)) == ToLower(c)
    ensures ToUpper(ToLower(c)) == ToUpper(c)
  {
  }

  /** `strlen`: the index of the first NUL. */
  function StrLen(s: seq<char>): (n: nat)
    requires NUL in s
    ensures n < |s| && s[n] == NUL
    ensures forall k :: 0 <= k < n ==> s[k] != NUL
  {
    if s[0] == NUL then 0 else 1 + StrLen(s[1..])
  }

  /** Upper-cases every character of a text. */
  function MapUpper(s: string): (r: string)
    ensures |r| == |s|
    ensures NUL !in s ==> NUL !in r
  {
    if s == [] then [] else [ToUpper(s[0])] + MapUpper(s[1..])
  }

  /** Lower-cases every character of a text. */
  function MapLower(s: string): (r: string)
    ensures |r| == |s|
  {
    if s == [] then [] else [ToLower(s[0])] + MapLower(s[1..])
  }

  lemma {:induction false} MapUpperAt(s: string, k: nat)
    requires k < |s|
    ensures MapUpper(s)[k] == ToUpper(s[k])
  {
    if k > 0 {
      MapUpperAt(s[1..], k - 1);
    }
  }

  lemma {:induction false} MapLowerAt(s: string, k: nat)
    requires k < |s|
    ensures MapLower(s)[k] == ToLower(s[k])
  {
    if k > 0 {
      MapLowerAt(s[1..], k - 1);
    }
  }

  /** The buffer `toupperstr` leaves behind: the text before the first NUL
      upper-cased, the rest untouched. */
  function UpperStr(s: seq<char>): (r: seq<char>)
    requires NUL in s
  {
    MapUpper(s[..StrLen(s)]) + s[StrLen(s)..]
  }

  /** The buffer `tolowerstr` leaves behind. */
  function LowerStr(s: seq<char>): (r: seq<char>)
    requires NUL in s
  {
    MapLower(s[..StrLen(s)]) + s[StrLen(s)..]
  }

  /** `toupperstr` keeps the length and the terminating NUL, turns each lower-case
      letter before the NUL into its upper-case form and leaves every other
      character where it was. */
  lemma UpperStrSpec(s: seq<char>)
    requires NUL in s
    ensures |UpperStr(s)| == |s|
    ensures NUL in UpperStr(s) && StrLen(UpperStr(s)) == StrLen(s)
    ensures forall k :: 0 <= k < StrLen(s) && IsLower(s[k]) ==>
              IsUpper(UpperStr(s)[k]) && s[k] as int - UpperStr(s)[k] as int == 'a' as int - 'A' as int
    ensures forall k :: 0 <= k < |s| && (k >= StrLen(s) || !IsLower(s[k])) ==> UpperStr(s)[k] == s[k]
  {
    var n, r := StrLen(s), UpperStr(s);
    forall k | 0 <= k < |s|
      ensures r[k] == if k < n then ToUpper(s[k]) else s[k]
    {
      if k < n { MapUpperAt(s[..n], k); }
    }
    assert r[n] == NUL;
    StrLenAt(r, n);
  }

  /** Mirror image of UpperStrSpec for `tolowerstr`. */
  lemma LowerStrSpec(s: seq<char>)
    requires NUL in s
    ensures |LowerStr(s)| == |s|
    ensures NUL in LowerStr(s) && StrLen(LowerStr(s)) == StrLen(s)
    ensures forall k :: 0 <= k < StrLen(s) && IsUpper(s[k]) ==>
              IsLower(LowerStr(s)[k]) && LowerStr(s)[k] as int - s[k] as int == 'a' as int - 'A' as int
    ensures forall k :: 0 <= k < |s| && (k >= StrLen(s) || !IsUpper(s[k])) ==> LowerStr(s)[k] == s[k]
  {
    var n, r := StrLen(s), LowerStr(s);
    forall k | 0 <= k < |s|
      ensures r[k] == if k < n then ToLower(s[k]) else s[k]
    {
      if k < n { MapLowerAt(s[..n], k); }
    }
    assert r[n] == NUL;
    StrLenAt(r, n);
  }

  /** A NUL with none before it is where `strlen` stops. */
  lemma StrLenAt(s: seq<char>, n: nat)
    requires n < |s| && s[n] == NUL
    requires forall k :: 0 <= k < n ==> s[k] != NUL
    ensures StrLen(s) == n
  {
  }

  /** Upper-casing a text twice is upper-casing it once. */
  lemma {:induction false} MapUpperIdempotent(s: string)
    ensures MapUpper(MapUpper(s)) == MapUpper(s)
  {
    if s != [] {
      MapUpperIdempotent(s[1..]);
      assert MapUpper(s)[1..] == MapUpper(s[1..]);
    }
  }

  /** Lower-casing a text twice is lower-casing it once. */
  lemma {:induction false} MapLowerIdempotent(s: string)
    ensures MapLower(MapLower(s)) == MapLower(s)
  {
    if s != [] {
      MapLowerIdempotent(s[1..]);
      assert MapLower(s)[1..] == MapLower(s[1..]);
    }
  }

  /** Lower-casing forgets an earlier upper-casing, and the other way round.
      A property of the two text maps only: the program never calls
      `tolowerstr`. */
  lemma {:induction false} MapCaseAbsorb(s: string)
    ensures MapLower(MapUpper(s)) == MapLower(s)
    ensures MapUpper(MapLower(s)) == MapUpper(s)
  {
    if s != [] {
      MapCaseAbsorb(s[1..]);
      CaseRoundTrip(s[0]);
      assert MapUpper(s)[1..] == MapUpper(s[1..]);
      assert MapLower(s)[1..] == MapLower(s[1..]);
    }
  }

  /** `toupperstr` is idempotent. */
  lemma UpperStrIdempotent(s: seq<char>)
    requires NUL in s
    ensures NUL in UpperStr(s) && UpperStr(UpperStr(s)) == UpperStr(s)
  {
    UpperStrSpec(s);
    var n, r := StrLen(s), UpperStr(s);
    assert r[..n] == MapUpper(s[..n]);
    assert r[n..] == s[n..];
    MapUpperIdempotent(s[..n]);
  }

  /** `tolowerstr` is idempotent. */
  lemma LowerStrIdempotent(s: seq<char>)
    requires NUL in s
    ensures NUL in LowerStr(s) && LowerStr(LowerStr(s)) == LowerStr(s)
  {
    LowerStrSpec(s);
    var n, r := StrLen(s), LowerStr(s);
    assert r[..n] == MapLower(s[..n]);
    assert r[n..] == s[n..];
    MapLowerIdempotent(s[..n]);
  }

  /** On a C string holding the text `t`, `toupperstr` leaves the upper-cased text. */
  lemma UpperStrOfText(t: CText)
    ensures NUL in t + [NUL] && UpperStr(t + [NUL]) == MapUpper(t) + [NUL]
  {
    var s := t + [NUL];
    StrLenAt(s, |t|);
    assert s[..|t|] == t;
  }

  /** `toupperstr`: upper-cases the buffer in place, up to its first NUL. */
  method ToUpperStr(p: array<char>)
    requires NUL in p[..]
    modifies p
    ensures p[..] == UpperStr(old(p[..]))
  {
    var c := StrLen(p[..]);
    var i := 0;
    while i < c
      invariant 0 <= i <= c && c == StrLen(old(p[..]))
      invariant forall k :: 0 <= k < i ==> p[k] == ToUpper(old(p[k]))
      invariant forall k :: i <= k < p.Length ==> p[k] == old(p[k])
    {
      p[i] := ToUpper(p[i]);
      i := i + 1;
    }
    ghost var s := old(p[..]);
    forall k | 0 <= k < p.Length
      ensures p[k] == UpperStr(s)[k]
    {
      if k < c { MapUpperAt(s[..c], k); }
    }
  }

  /** `tolowerstr`: lower-cases the buffer in place, up to its first NUL. */
  method ToLowerStr(p: array<char>)
    requires NUL in p[..]
    modifies p
    ensures p[..] == LowerStr(old(p[..]))
  {
    var c := StrLen(p[..]);
    var i := 0;
    while i < c
      invariant 0 <= i <= c && c == StrLen(old(p[..]))
      invariant forall k :: 0 <= k < i ==> p[k] == ToLower(old(p[k]))
      invariant forall k :: i <= k < p.Length ==> p[k] == old(p[k])
    {
      p[i] := ToLower(p[i]);
      i := i + 1;
    }
    ghost var s := old(p[..]);
    forall k | 0 <= k < p.Length
      ensures p[k] == LowerStr(s)[k]
    {
      if k < c { MapLowerAt(s[..c], k); }
    }
  }

  /** Puts a text into a fresh NUL-terminated buffer, runs `toupperstr` over
      it and reads the text back: what the program does to a C string it
      upper-cases. */
  method UpperText(t: CText) returns (r: CText)
    ensures r == MapUpper(t)
  {
    var p := new char[|t| + 1](k requires 0 <= k <= |t| => if k < |t| then t[k] else NUL);
    assert p[..] == t + [NUL];
    ToUpperStr(p);
    UpperStrOfText(t);
    r := p[..|t|];
  }

  /** `strncpy(dst, src, n)` with `n` the length of `src`: copies the
      characters of `src` and nothing else (no NUL is appended). */
  method StrNCopy(dst: array<char>, src: CText)
    requires |src| <= dst.Length
    modifies dst
    ensures dst[..|src|] == src
    ensures dst[|src|..] == old(dst[|src|..])
  {
    var i := 0;
    while i < |src|
      invariant 0 <= i <= |src|
      invariant dst[..i] == src[..i]
      invariant dst[|src|..] == old(dst[|src|..])
    {
      dst[i] := src[i];
      i := i + 1;
    }
  }

  /** `memset` of a buffer of `capacity + 1` characters followed by the
      `strncpy` of a text into it: the buffer then holds exactly that text,
      provided the text fits into `capacity` characters. */
  method CopyIntoCleared(t: CText, capacity: nat) returns (r: CText)
    requires |t| <= capacity
    ensures r == t
  {
    var buf := new char[capacity + 1](_ => NUL);
    StrNCopy(buf, t);
    assert buf[|t|] == NUL;
    StrLenAt(buf[..], |t|);
    r := buf[..StrLen(buf[..])];
  }
}
