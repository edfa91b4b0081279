/** Byte strings: searching, cutting at a separator and joining again. The MemoryStream methods are specified by these
    functions on the concatenation of the stream's buffers. */
module FlatBytes {
  import opened Totals

  newtype byte = x: int | 0 <= x < 256

  type bytes = seq<byte>

  predicate MatchAt(flat: bytes, pattern: bytes, i: nat) {
    i + |pattern| <= |flat| && flat[i..i + |pattern|] == pattern
  }

  /** The least position from start on and before end at which pattern occurs. */
  function FirstMatch(flat: bytes, pattern: bytes, start: nat, end: nat): (r: Option<nat>)
    ensures r.Some? ==> start <= r.value < end && r.value + |pattern| <= |flat|
    decreases end - start
  {
    if start >= end then None
    else if MatchAt(flat, pattern, start) then Some(start)
    else FirstMatch(flat, pattern, start + 1, end)
  }

  /** The least: pattern occurs at the result and nowhere before it. */
  lemma {:induction false} FirstMatchLeast(flat: bytes, pattern: bytes, start: nat, end: nat)
    ensures var r := FirstMatch(flat, pattern, start, end);
      && (r.Some? ==> MatchAt(flat, pattern, r.value))
      && forall i :: start <= i < end && (r.Some? ==> i < r.value) ==> !MatchAt(flat, pattern, i)
    decreases end - start
  {
    if start < end && !MatchAt(flat, pattern, start) {
      FirstMatchLeast(flat, pattern, start + 1, end);
    }
  }

  /** A position with nothing before it is the first match. */
  lemma FirstMatchIs(flat: bytes, pattern: bytes, start: nat, end: nat, i: nat)
    requires start <= i < end && MatchAt(flat, pattern, i)
    requires forall k :: start <= k < i ==> !MatchAt(flat, pattern, k)
    ensures FirstMatch(flat, pattern, start, end) == Some(i)
  {
    FirstMatchLeast(flat, pattern, start, end);
  }

  lemma FirstMatchNone(flat: bytes, pattern: bytes, start: nat, end: nat)
    requires forall k :: start <= k < end ==> !MatchAt(flat, pattern, k)
    ensures FirstMatch(flat, pattern, start, end) == None
  {
    FirstMatchLeast(flat, pattern, start, end);
  }

  // Finding a byte in a part of the string is finding it there in the whole.
  lemma FirstByteInPart(flat: bytes, b: byte, start: nat, stop: nat, at: Option<nat>)
    requires start <= stop <= |flat|
    requires at.Some? ==> at.value < stop - start && flat[start..stop][at.value] == b
    requires forall k :: 0 <= k < stop - start && (at.Some? ==> k < at.value) ==> flat[start..stop][k] != b
    ensures FirstMatch(flat, [b], start, stop) == Shift(at, start)
  {
    forall k | start <= k < stop && (at.Some? ==> k < start + at.value)
      ensures !MatchAt(flat, [b], k)
    {
      MatchByte(flat, b, k);
      assert flat[start..stop][k - start] == flat[k];
    }
    if at.Some? {
      MatchByte(flat, b, start + at.value);
      FirstMatchIs(flat, [b], start, stop, start + at.value);
    } else {
      FirstMatchNone(flat, [b], start, stop);
    }
  }

  lemma NoMatchWithoutByte(flat: bytes, pattern: bytes)
    requires pattern != [] && pattern[0] !in flat
    ensures forall i: nat :: !MatchAt(flat, pattern, i)
  {
    forall i: nat
      ensures !MatchAt(flat, pattern, i)
    {
      MatchFirstThenRest(flat, pattern, i);
      MatchByte(flat, pattern[0], i);
    }
  }

  // A pattern occurs nowhere before the first occurrence of its first byte.
  lemma NotBeforeFirstByte(flat: bytes, pattern: bytes, start: nat, stop: nat, k: nat)
    requires pattern != [] && start <= k < stop
    requires var first := FirstMatch(flat, [pattern[0]], start, stop); first.Some? ==> k < first.value
    ensures !MatchAt(flat, pattern, k)
  {
    FirstMatchLeast(flat, [pattern[0]], start, stop);
    MatchFirstThenRest(flat, pattern, k);
  }

  lemma MatchBytes(flat: bytes, pattern: bytes, i: nat)
    requires i + |pattern| <= |flat|
    ensures MatchAt(flat, pattern, i) <==> forall k :: 0 <= k < |pattern| ==> pattern[k] == flat[i + k]
  {
    var part := flat[i..i + |pattern|];
    assert forall k :: 0 <= k < |pattern| ==> part[k] == flat[i + k];
  }

  lemma MatchByte(flat: bytes, b: byte, i: nat)
    ensures MatchAt(flat, [b], i) <==> i < |flat| && flat[i] == b
  {
  }

  // A pattern occurs where its first byte does, followed by the rest.
  lemma MatchFirstThenRest(flat: bytes, pattern: bytes, i: nat)
    requires pattern != []
    ensures MatchAt(flat, pattern, i) <==> MatchAt(flat, [pattern[0]], i) && MatchAt(flat, pattern[1..], i + 1)
  {
    MatchByte(flat, pattern[0], i);
    if i + |pattern| <= |flat| {
      assert flat[i..i + |pattern|] == [flat[i]] + flat[i + 1..i + 1 + |pattern[1..]|];
      assert pattern == [pattern[0]] + pattern[1..];
    }
  }

  lemma MatchInPrefix(flat: bytes, pattern: bytes, n: nat, i: nat)
    requires n <= |flat|
    ensures MatchAt(flat[..n], pattern, i) <==> i + |pattern| <= n && MatchAt(flat, pattern, i)
  {
    if i + |pattern| <= n {
      assert flat[..n][i..i + |pattern|] == flat[i..i + |pattern|];
    }
  }

  function Shift(at: Option<nat>, start: nat): Option<nat> {
    match at
    case None => None
    case Some(i) => Some(start + i)
  }

  // Searching from start on is searching the rest of the string.
  lemma {:induction false} FirstMatchShift(flat: bytes, pattern: bytes, start: nat, i: nat)
    requires start + i <= |flat|
    ensures FirstMatch(flat, pattern, start + i, |flat|)
            == Shift(FirstMatch(flat[start..], pattern, i, |flat| - start), start)
    decreases |flat| - i
  {
    if start + i < |flat| {
      MatchShift(flat, pattern, start, i);
      FirstMatchShift(flat, pattern, start, i + 1);
    }
  }

  lemma MatchShift(flat: bytes, pattern: bytes, start: nat, i: nat)
    requires start <= |flat|
    ensures MatchAt(flat, pattern, start + i) <==> MatchAt(flat[start..], pattern, i)
  {
    if start + i + |pattern| <= |flat| {
      assert flat[start + i..start + i + |pattern|] == flat[start..][i..i + |pattern|];
    }
  }

  // More bytes keep the first match, or the first match needs some of them.
  lemma FirstMatchGrows(flat: bytes, more: bytes, pattern: bytes)
    requires pattern != []
    ensures
      var before, after := FirstMatch(flat, pattern, 0, |flat|), FirstMatch(flat + more, pattern, 0, |flat + more|);
      && (before.Some? ==> after == before)
      && (before.None? && after.Some? ==> after.value + |pattern| > |flat|)
  {
    var all := flat + more;
    assert all[..|flat|] == flat;
    FirstMatchLeast(flat, pattern, 0, |flat|);
    FirstMatchLeast(all, pattern, 0, |all|);
    var before, after := FirstMatch(flat, pattern, 0, |flat|), FirstMatch(all, pattern, 0, |all|);
    forall k: nat | k <= |flat|
      ensures MatchAt(flat, pattern, k) <==> k + |pattern| <= |flat| && MatchAt(all, pattern, k)
    {
      MatchInPrefix(all, pattern, |flat|, k);
    }
    if before.Some? {
      FirstMatchIs(all, pattern, 0, |all|, before.value);
    }
  }

  predicate Contains(flat: bytes, pattern: bytes) {
    exists i :: 0 <= i <= |flat| && MatchAt(flat, pattern, i)
  }

  /** The pieces between occurrences of separator; with limit > 0 at most limit of them, the last being all that is
      left. */
  function Fragments(flat: bytes, separator: bytes, limit: nat): (r: seq<bytes>)
    requires separator != []
    ensures r != []
    decreases |flat|
  {
    if limit == 1 then [flat]
    else
      match FirstMatch(flat, separator, 0, |flat|)
      case None => [flat]
      case Some(i) => [flat[..i]] + Fragments(flat[i + |separator|..], separator, if limit == 0 then 0 else limit - 1)
  }

  // The rest of the string from start on is the last fragment ...
  lemma FragmentsLast(flat: bytes, separator: bytes, limit: nat, start: nat)
    requires separator != [] && start <= |flat|
    requires limit == 1 || FirstMatch(flat, separator, start, |flat|) == None
    ensures Fragments(flat[start..], separator, limit) == [flat[start..]]
  {
    if limit != 1 {
      FirstMatchShift(flat, separator, start, 0);
    }
  }

  // ... or is cut at the next separator.
  lemma FragmentsNext(flat: bytes, separator: bytes, limit: nat, start: nat, i: nat)
    requires separator != [] && start <= |flat|
    requires limit != 1 && FirstMatch(flat, separator, start, |flat|) == Some(i)
    ensures Fragments(flat[start..], separator, limit)
         == [flat[start..i]] + Fragments(flat[i + |separator|..], separator, if limit == 0 then 0 else limit - 1)
  {
    var n := i - start;
    assert FirstMatch(flat[start..], separator, 0, |flat[start..]|) == Some(n) by {
      FirstMatchShift(flat, separator, start, 0);
    }
    FragmentsCut(flat[start..], separator, limit, n);
    assert flat[start..][..n] == flat[start..i] by { DropTwice(flat, start, n); }
    assert flat[start..][n + |separator|..] == flat[i + |separator|..] by { DropTwice(flat, start, n + |separator|); }
  }

  lemma DropTwice(flat: bytes, start: nat, i: nat)
    requires start + i <= |flat|
    ensures flat[start..][..i] == flat[start..start + i]
    ensures flat[start..][i..] == flat[start + i..]
  {
  }

  lemma FragmentsCut(flat: bytes, separator: bytes, limit: nat, i: nat)
    requires separator != [] && limit != 1 && FirstMatch(flat, separator, 0, |flat|) == Some(i)
    ensures Fragments(flat, separator, limit)
         == [flat[..i]] + Fragments(flat[i + |separator|..], separator, if limit == 0 then 0 else limit - 1)
  {
  }

  function Join(fragments: seq<bytes>, separator: bytes): bytes {
    if fragments == [] then []
    else if |fragments| == 1 then fragments[0]
    else fragments[0] + separator + Join(fragments[1..], separator)
  }

  /** Joining the fragments with the separator gives the string back. */
  lemma {:induction false} JoinFragments(flat: bytes, separator: bytes, limit: nat)
    requires separator != []
    ensures Join(Fragments(flat, separator, limit), separator) == flat
    decreases |flat|
  {
    var first := FirstMatch(flat, separator, 0, |flat|);
    if limit != 1 && first.Some? {
      var head, after := flat[..first.value], flat[first.value + |separator|..];
      var next := if limit == 0 then 0 else limit - 1;
      JoinFragments(after, separator, next);
      FirstMatchLeast(flat, separator, 0, |flat|);
      CutOnce(flat, separator, first.value);
      JoinCons(head, Fragments(after, separator, next), separator);
    }
  }

  lemma CutOnce(flat: bytes, separator: bytes, i: nat)
    requires MatchAt(flat, separator, i)
    ensures flat == flat[..i] + separator + flat[i + |separator|..]
  {
    assert flat == flat[..i] + flat[i..i + |separator|] + flat[i + |separator|..];
  }

  lemma JoinCons(first: bytes, rest: seq<bytes>, separator: bytes)
    requires rest != []
    ensures Join([first] + rest, separator) == first + separator + Join(rest, separator)
  {
    assert ([first] + rest)[1..] == rest;
  }

  /** A positive limit bounds the number of fragments. */
  lemma {:induction false} FragmentsWithinLimit(flat: bytes, separator: bytes, limit: nat)
    requires separator != [] && limit > 0
    ensures |Fragments(flat, separator, limit)| <= limit
    decreases |flat|
  {
    var first := FirstMatch(flat, separator, 0, |flat|);
    if limit != 1 && first.Some? {
      FragmentsWithinLimit(flat[first.value + |separator|..], separator, limit - 1);
    }
  }

  /** The limit is kept for exactly the positive limits: limit 0, which has no fragment index before it, cuts
      everywhere. */
  lemma WithinLimitIffPositive(flat: bytes, separator: bytes, limit: nat)
    requires separator != []
    ensures |Fragments(flat, separator, limit)| <= limit <==> limit > 0
  {
    if limit > 0 {
      FragmentsWithinLimit(flat, separator, limit);
    }
  }

  // Nothing before the first occurrence contains the separator.
  lemma SeparatorFreeBefore(flat: bytes, separator: bytes, i: nat)
    requires separator != [] && i <= |flat|
    requires var first := FirstMatch(flat, separator, 0, |flat|); i == if first.Some? then first.value else |flat|
    ensures !Contains(flat[..i], separator)
  {
    FirstMatchLeast(flat, separator, 0, |flat|);
    forall j: nat | j <= i
      ensures !MatchAt(flat[..i], separator, j)
    {
      MatchInPrefix(flat, separator, i, j);
    }
  }

  /** No fragment contains the separator, except possibly the last one when the limit has been reached. */
  lemma {:induction false} FragmentsSeparatorFree(flat: bytes, separator: bytes, limit: nat, k: nat)
    requires separator != [] && k < |Fragments(flat, separator, limit)|
    ensures k < |Fragments(flat, separator, limit)| - 1 || |Fragments(flat, separator, limit)| != limit ==>
              !Contains(Fragments(flat, separator, limit)[k], separator)
    decreases |flat|
  {
    var first := FirstMatch(flat, separator, 0, |flat|);
    if limit == 1 {
    } else if first.None? {
      SeparatorFreeBefore(flat, separator, |flat|);
      assert flat[..|flat|] == flat;
    } else {
      var i := first.value;
      var next := if limit == 0 then 0 else limit - 1;
      var rest := Fragments(flat[i + |separator|..], separator, next);
      assert Fragments(flat, separator, limit) == [flat[..i]] + rest;
      if k == 0 {
        SeparatorFreeBefore(flat, separator, i);
      } else {
        FragmentsSeparatorFree(flat[i + |separator|..], separator, next, k - 1);
      }
    }
  }

  // There are at most as many separators as bytes.
  lemma {:induction false} FragmentsCount(flat: bytes, separator: bytes)
    requires separator != []
    ensures |Fragments(flat, separator, 0)| <= |flat| + 1
    decreases |flat|
  {
    var first := FirstMatch(flat, separator, 0, |flat|);
    if first.Some? {
      FragmentsCount(flat[first.value + |separator|..], separator);
    }
  }

  lemma {:induction false} FragmentLength(flat: bytes, separator: bytes, limit: nat, k: nat)
    requires separator != [] && k < |Fragments(flat, separator, limit)|
    ensures |Fragments(flat, separator, limit)[k]| <= |flat|
    decreases |flat|
  {
    var first := FirstMatch(flat, separator, 0, |flat|);
    if limit != 1 && first.Some? && k > 0 {
      FragmentLength(flat[first.value + |separator|..], separator, if limit == 0 then 0 else limit - 1, k - 1);
    }
  }

  /** The limit stops the cutting only when it has been reached; otherwise every occurrence is cut. */
  lemma {:induction false} FragmentsBelowLimit(flat: bytes, separator: bytes, limit: nat)
    requires separator != [] && limit > 0 && |Fragments(flat, separator, 0)| <= limit
    ensures Fragments(flat, separator, limit) == Fragments(flat, separator, 0)
    decreases |flat|
  {
    var first := FirstMatch(flat, separator, 0, |flat|);
    if first.Some? {
      var rest := flat[first.value + |separator|..];
      assert Fragments(flat, separator, 0)[1..] == Fragments(rest, separator, 0);
      FragmentsBelowLimit(rest, separator, limit - 1);
    }
  }

  // A proper border: a non-empty proper prefix of s that is also its suffix.
  predicate Border(s: bytes, b: nat) {
    0 < b < |s| && s[..b] == s[|s| - b..]
  }

  predicate Borderless(s: bytes) {
    forall b :: 0 < b < |s| ==> !Border(s, b)
  }

  // An occurrence that begins in the fragment and ends in the separator makes the separator overlap itself.
  lemma Overlap(fragment: bytes, separator: bytes, rest: bytes, k: nat)
    requires k < |fragment| < k + |separator| && MatchAt(fragment + separator + rest, separator, k)
    ensures Border(separator, k + |separator| - |fragment|)
  {
    var flat, over := fragment + separator + rest, k + |separator| - |fragment|;
    assert separator[|separator| - over..] == flat[k..k + |separator|][|separator| - over..]
           == flat[|fragment|..|fragment| + over];
    assert flat[|fragment|..|fragment| + over] == separator[..over];
  }

  // In fragment + separator + rest, a borderless separator occurs first right after a separator-free fragment.
  lemma FirstSeparator(fragment: bytes, separator: bytes, rest: bytes)
    requires separator != [] && Borderless(separator) && !Contains(fragment, separator)
    ensures var flat := fragment + separator + rest; FirstMatch(flat, separator, 0, |flat|) == Some(|fragment|)
  {
    var flat := fragment + separator + rest;
    assert flat[|fragment|..|fragment| + |separator|] == separator;
    forall k: nat | k < |fragment|
      ensures !MatchAt(flat, separator, k)
    {
      MatchInPrefix(flat, separator, |fragment|, k);
      assert flat[..|fragment|] == fragment;
      if k + |separator| > |fragment| && MatchAt(flat, separator, k) {
        Overlap(fragment, separator, rest, k);
      }
    }
    FirstMatchIs(flat, separator, 0, |flat|, |fragment|);
  }

  lemma {:induction false} FragmentsJoin(fragments: seq<bytes>, separator: bytes)
    requires separator != [] && Borderless(separator) && fragments != []
    requires forall k :: 0 <= k < |fragments| ==> !Contains(fragments[k], separator)
    ensures Fragments(Join(fragments, separator), separator, 0) == fragments
  {
    var flat := Join(fragments, separator);
    if |fragments| == 1 {
      FirstMatchNone(flat, separator, 0, |flat|);
    } else {
      var rest := Join(fragments[1..], separator);
      FirstSeparator(fragments[0], separator, rest);
      assert flat[..|fragments[0]|] == fragments[0];
      assert flat[|fragments[0]| + |separator|..] == rest;
      FragmentsJoin(fragments[1..], separator);
    }
  }

  ghost predicate RoundTrips(separator: bytes)
    requires separator != []
  {
    forall fragments: seq<bytes> ::
      fragments != [] && (forall k :: 0 <= k < |fragments| ==> !Contains(fragments[k], separator)) ==>
        Fragments(Join(fragments, separator), separator, 0) == fragments
  }

  /** Splitting a joined list of separator-free fragments gives the list back for exactly the separators that have no
      proper border, such as a single byte or CR LF. */
  lemma RoundTripsIffBorderless(separator: bytes)
    requires separator != []
    ensures RoundTrips(separator) <==> Borderless(separator)
  {
    if Borderless(separator) {
      forall fragments: seq<bytes>
        | fragments != [] && forall k :: 0 <= k < |fragments| ==> !Contains(fragments[k], separator)
        ensures Fragments(Join(fragments, separator), separator, 0) == fragments
      {
        FragmentsJoin(fragments, separator);
      }
    } else {
      var b :| 0 < b < |separator| && Border(separator, b);
      var fragments := [separator[..|separator| - b], []];
      BorderBreaks(separator, b);
      assert !(Fragments(Join(fragments, separator), separator, 0) == fragments);
    }
  }

  // A border lets the separator overlap itself: cutting too early.
  lemma BorderBreaks(separator: bytes, b: nat)
    requires Border(separator, b)
    ensures
      var fragments := [separator[..|separator| - b], []];
      && (forall k :: 0 <= k < |fragments| ==> !Contains(fragments[k], separator))
      && Fragments(Join(fragments, separator), separator, 0) != fragments
  {
    var head := separator[..|separator| - b];
    var flat := Join([head] + [[]], separator);
    JoinCons(head, [[]], separator);
    assert flat == head + separator;
    assert flat[..|separator|] == separator by {
      assert flat[..|separator|] == head + separator[..b];
      assert separator == head + separator[|separator| - b..];
    }
    assert MatchAt(flat, separator, 0);
    assert FirstMatch(flat, separator, 0, |flat|) == Some(0);
    assert [head] + [[]] == [head, []];
    assert Fragments(flat, separator, 0)[0] == [];
  }

  // Base-256 value, most significant byte first.
  function BigEndian(s: bytes): nat {
    if s == [] then 0 else 256 * BigEndian(s[..|s| - 1]) + s[|s| - 1] as nat
  }

  function Pow256(n: nat): (r: nat)
    ensures r > 0
  {
    if n == 0 then 1 else 256 * Pow256(n - 1)
  }

  // The bytes of a value that fits width bytes, most significant first.
  function BigEndianBytes(value: nat, width: nat): (r: bytes)
    requires value < Pow256(width)
    ensures |r| == width
  {
    if width == 0 then [] else BigEndianBytes(value / 256, width - 1) + [(value % 256) as byte]
  }

  lemma {:induction false} BigEndianBound(s: bytes)
    ensures BigEndian(s) < Pow256(|s|)
  {
    if s != [] {
      BigEndianBound(s[..|s| - 1]);
    }
  }

  /** Big-endian bytes and values below 256^width determine each other. */
  lemma {:induction false} BigEndianRoundTrip(s: bytes, value: nat)
    requires value < Pow256(|s|)
    ensures BigEndian(s) < Pow256(|s|)
    ensures BigEndian(s) == value <==> s == BigEndianBytes(value, |s|)
  {
    BigEndianBound(s);
    if s != [] {
      BigEndianRoundTrip(s[..|s| - 1], value / 256);
      var bytesOfValue := BigEndianBytes(value, |s|);
      assert bytesOfValue[..|s| - 1] == BigEndianBytes(value / 256, |s| - 1);
      assert s == s[..|s| - 1] + [s[|s| - 1]];
    }
  }

  function TrimStart(s: bytes, members: set<byte>): bytes {
    if s != [] && s[0] in members then TrimStart(s[1..], members) else s
  }

  function TrimEnd(s: bytes, members: set<byte>): bytes {
    if s != [] && s[|s| - 1] in members then TrimEnd(s[..|s| - 1], members) else s
  }

  lemma {:induction false} TrimStartIs(s: bytes, members: set<byte>, i: nat)
    requires i <= |s| && (forall k :: 0 <= k < i ==> s[k] in members) && (i < |s| ==> s[i] !in members)
    ensures TrimStart(s, members) == s[i..]
  {
    if i > 0 {
      TrimStartIs(s[1..], members, i - 1);
      assert s[1..][i - 1..] == s[i..];
    }
  }

  lemma {:induction false} TrimEndIs(s: bytes, members: set<byte>, i: nat)
    requires i <= |s| && (forall k :: i <= k < |s| ==> s[k] in members) && (i > 0 ==> s[i - 1] !in members)
    ensures TrimEnd(s, members) == s[..i]
  {
    if i < |s| {
      TrimEndIs(s[..|s| - 1], members, i);
      assert s[..|s| - 1][..i] == s[..i];
    }
  }

  // ---- what trimming leaves and what it cuts, byte by byte ----

  // Blank, CR, LF and tab.
  predicate Blank(b: byte) {
    b == 32 || b == 13 || b == 10 || b == 9
  }

  // The first i and the bytes from j on are blank; t is what lies between, and no blank is left at either end of it.
  predicate CutsTo(s: bytes, t: bytes, i: nat, j: nat) {
    && i <= j <= |s| && t == s[i..j]
    && (forall k :: 0 <= k < i ==> Blank(s[k])) && (forall k :: j <= k < |s| ==> Blank(s[k]))
    && (t != [] ==> !Blank(t[0]) && !Blank(t[|t| - 1]))
  }

  predicate TrimsTo(s: bytes, t: bytes) {
    exists i, j :: 0 <= i <= j <= |s| && CutsTo(s, t, i, j)
  }

  // Blanks are cut off on both sides of what begins and ends without one.
  lemma KeptInside(s: bytes, i: nat, j: nat, m: nat, n: nat)
    requires i < j <= |s| && !Blank(s[i]) && !Blank(s[j - 1]) && m <= n <= |s|
    requires (forall k :: 0 <= k < m ==> Blank(s[k])) && (forall k :: n <= k < |s| ==> Blank(s[k]))
    ensures m <= i && j <= n
  {
  }

  lemma CutsToOne(s: bytes, t: bytes, i: nat, j: nat, u: bytes, m: nat, n: nat)
    requires CutsTo(s, t, i, j) && CutsTo(s, u, m, n)
    ensures t == u
  {
    if i < j {
      assert t[0] == s[i] && t[|t| - 1] == s[j - 1];
      KeptInside(s, i, j, m, n);
    }
    if m < n {
      assert u[0] == s[m] && u[|u| - 1] == s[n - 1];
      KeptInside(s, m, n, i, j);
    }
  }

  // There is only one way to trim.
  lemma TrimsToOne(s: bytes, t: bytes, u: bytes)
    requires TrimsTo(s, t) && TrimsTo(s, u)
    ensures t == u
  {
    var i, j :| 0 <= i <= j <= |s| && CutsTo(s, t, i, j);
    var m, n :| 0 <= m <= n <= |s| && CutsTo(s, u, m, n);
    CutsToOne(s, t, i, j, u, m, n);
  }

  lemma {:induction false} TrimStartCuts(s: bytes, members: set<byte>) returns (i: nat)
    requires forall b :: b in members <==> Blank(b)
    ensures i <= |s| && TrimStart(s, members) == s[i..]
    ensures (forall k :: 0 <= k < i ==> Blank(s[k])) && (i < |s| ==> !Blank(s[i]))
  {
    i := 0;
    while i < |s| && s[i] in members
      invariant i <= |s| && forall k :: 0 <= k < i ==> s[k] in members
    {
      i := i + 1;
    }
    TrimStartIs(s, members, i);
  }

  lemma {:induction false} TrimEndCuts(s: bytes, members: set<byte>) returns (j: nat)
    requires forall b :: b in members <==> Blank(b)
    ensures j <= |s| && TrimEnd(s, members) == s[..j]
    ensures (forall k :: j <= k < |s| ==> Blank(s[k])) && (j > 0 ==> !Blank(s[j - 1]))
  {
    j := |s|;
    while j > 0 && s[j - 1] in members
      invariant j <= |s| && forall k :: j <= k < |s| ==> s[k] in members
    {
      j := j - 1;
    }
    TrimEndIs(s, members, j);
  }

  /** Trimming both ends of the four blank bytes is cutting blanks off until none is left at an end, and nothing
      else. */
  lemma TrimmedExactly(s: bytes, members: set<byte>, t: bytes)
    requires forall b :: b in members <==> Blank(b)
    ensures t == TrimEnd(TrimStart(s, members), members) <==> TrimsTo(s, t)
  {
    var i := TrimStartCuts(s, members);
    var j := TrimEndCuts(s[i..], members);
    var trimmed := TrimEnd(TrimStart(s, members), members);
    assert trimmed == s[i..i + j];
    forall k | i + j <= k < |s| ensures Blank(s[k]) { assert s[i..][k - i] == s[k]; }
    assert j > 0 ==> trimmed[0] == s[i] && trimmed[|trimmed| - 1] == s[i..][j - 1];
    assert CutsTo(s, trimmed, i, i + j);
    if TrimsTo(s, t) {
      TrimsToOne(s, t, trimmed);
    }
  }
}
