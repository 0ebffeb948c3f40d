/**
 * The roster cursor: base64url (section 5 of RFC 4648) of the creation time, a unit separator and the companion id,
 * with the padding of section 3.2 stripped on the way out and recomputed on the way in.
 */
module Cursor {
  import opened Core

  type Byte = b: int | 0 <= b < 256 witness 0
  type Sextet = s: int | 0 <= s < 64 witness 0

  const PAD: char := '='
  const SEPARATOR: Byte := 0x1f

  // ----- The alphabet ---------------------------------------------------------

  function Letter(s: Sextet): char {
    if s < 26 then (s + 65) as char
    else if s < 52 then (s - 26 + 97) as char
    else if s < 62 then (s - 52 + 48) as char
    else if s == 62 then '-' else '_'
  }

  /** Decoding takes either alphabet's last two letters. */
  function Value(c: char): Option<Sextet> {
    if 'A' <= c <= 'Z' then Some(c as int - 65)
    else if 'a' <= c <= 'z' then Some(c as int - 97 + 26)
    else if '0' <= c <= '9' then Some(c as int - 48 + 52)
    else if c == '-' || c == '+' then Some(62) else if c == '_' || c == '/' then Some(63)
    else None
  }

  predicate Ascii(s: string) {
    forall i | 0 <= i < |s| :: s[i] < 128 as char
  }

  lemma LetterHasItsValue(s: Sextet)
    ensures Value(Letter(s)) == Some(s) && Letter(s) != PAD && Letter(s) < 128 as char
  {
  }

  // ----- base64 ---------------------------------------------------------------

  function First(a: Byte): Sextet { a / 4 }
  function Second(a: Byte, b: Byte): Sextet { a % 4 * 16 + b / 16 }
  function Third(b: Byte, c: Byte): Sextet { b % 16 * 4 + c / 64 }
  function Fourth(c: Byte): Sextet { c % 64 }

  function High(s: Sextet, t: Sextet): Byte { s * 4 + t / 16 }
  function Middle(t: Sextet, u: Sextet): Byte { t % 16 * 16 + u / 4 }
  function Low(u: Sextet, v: Sextet): Byte { u % 4 * 64 + v }

  lemma SextetsHoldTheBytes(a: Byte, b: Byte, c: Byte)
    ensures High(First(a), Second(a, b)) == a && Middle(Second(a, b), Third(b, c)) == b && Low(Third(b, c), Fourth(c)) == c
  {
  }

  function Encode64(bytes: seq<Byte>): string {
    if |bytes| == 0 then ""
    else if |bytes| == 1 then [Letter(First(bytes[0])), Letter(Second(bytes[0], 0)), PAD, PAD]
    else if |bytes| == 2 then [Letter(First(bytes[0])), Letter(Second(bytes[0], bytes[1])), Letter(Third(bytes[1], 0)), PAD]
    else
      [Letter(First(bytes[0])), Letter(Second(bytes[0], bytes[1])), Letter(Third(bytes[1], bytes[2])), Letter(Fourth(bytes[2]))]
      + Encode64(bytes[3..])
  }

  /** The bytes of two, three or four sextets; the bits a short group leaves over are dropped. */
  function Flush(held: seq<Sextet>): seq<Byte>
    requires 2 <= |held| <= 4
  {
    [High(held[0], held[1])] + (if |held| > 2 then [Middle(held[1], held[2])] else [])
    + (if |held| > 3 then [Low(held[2], held[3])] else [])
  }

  function After(bytes: seq<Byte>, rest: Option<seq<Byte>>): Option<seq<Byte>> {
    if rest.None? then None else Some(bytes + rest.value)
  }

  /** The library's decoding: held are the sextets of an unfinished group, pads the padding met behind them. Characters of
      neither alphabet are skipped, padding that completes no group is too, and what follows a completing one is not read. */
  function Scan(s: string, held: seq<Sextet>, pads: nat): Option<seq<Byte>>
    requires |held| < 4
  {
    if s == "" then if held == [] then Some([]) else None
    else if s[0] == PAD then
      if |held| >= 2 && |held| + pads + 1 >= 4 then Some(Flush(held))
      else Scan(s[1..], held, if |held| >= 2 then pads + 1 else pads)
    else if Value(s[0]).None? then Scan(s[1..], held, pads)
    else if |held| == 3 then After(Flush(held + [Value(s[0]).value]), Scan(s[1..], [], 0))
    else Scan(s[1..], held + [Value(s[0]).value], 0)
  }

  function Decode64(s: string): Option<seq<Byte>> {
    if Ascii(s) then Scan(s, [], 0) else None
  }

  lemma OneByteGroups()
    ensures Encode64([0x66]) == "Zg==" && Encode64([0xfb]) == "-w==" && Encode64([0xff]) == "_w=="
  {
    assert First(0x66) == 25 && Second(0x66, 0) == 32 && First(0xfb) == 62 && Second(0xfb, 0) == 48 && First(0xff) == 63;
  }

  lemma TwoByteGroup()
    ensures Encode64([0x66, 0x6f]) == "Zm8="
  {
    assert First(0x66) == 25 && Second(0x66, 0x6f) == 38 && Third(0x6f, 0) == 60;
  }

  lemma WholeGroup(rest: seq<Byte>)
    ensures Encode64([0x66, 0x6f, 0x6f] + rest) == "Zm9v" + Encode64(rest)
  {
    assert First(0x66) == 25 && Second(0x66, 0x6f) == 38 && Third(0x6f, 0x6f) == 61 && Fourth(0x6f) == 47;
    assert ([0x66, 0x6f, 0x6f] + rest)[3..] == rest;
  }

  /** The test vectors of section 10 of RFC 4648 up to "foo", the last one also with more behind it, and the two letters that
      only the alphabet of its table 2 has. */
  lemma EncodesAsTheStandard(rest: seq<Byte>)
    ensures Encode64([]) == "" && Encode64([0x66]) == "Zg==" && Encode64([0x66, 0x6f]) == "Zm8="
    ensures Encode64([0x66, 0x6f, 0x6f] + rest) == "Zm9v" + Encode64(rest)
    ensures Encode64([0xfb]) == "-w==" && Encode64([0xff]) == "_w=="
  {
    OneByteGroups();
    TwoByteGroup();
    WholeGroup(rest);
  }

  // ----- Padding --------------------------------------------------------------

  /** rstrip("="). */
  function Strip(s: string): (t: string)
    ensures t <= s && (t == "" || t[|t| - 1] != PAD)
    ensures forall i | |t| <= i < |s| :: s[i] == PAD
  {
    if s != "" && s[|s| - 1] == PAD then Strip(s[..|s| - 1]) else s
  }

  function Pads(n: nat): string {
    if n == 0 then "" else [PAD] + Pads(n - 1)
  }

  lemma {:induction false} PadsAre(n: nat)
    ensures |Pads(n)| == n && forall i | 0 <= i < n :: Pads(n)[i] == PAD
  {
    if n > 0 { PadsAre(n - 1); }
  }

  /** -n % 4. */
  function Missing(n: nat): nat {
    if n % 4 == 0 then 0 else 4 - n % 4
  }

  /** cursor + "=" * (-len(cursor) % 4). */
  function Repad(s: string): string {
    s + Pads(Missing(|s|))
  }

  // ----- Decoding inverts encoding ----------------------------------------------

  lemma ScansLetter(x: Sextet, rest: string, held: seq<Sextet>, pads: nat)
    requires |held| < 3
    ensures Scan([Letter(x)] + rest, held, pads) == Scan(rest, held + [x], 0)
  {
    LetterHasItsValue(x);
    assert ([Letter(x)] + rest)[1..] == rest;
  }

  lemma ScansFourth(x: Sextet, rest: string, held: seq<Sextet>, pads: nat)
    requires |held| == 3
    ensures Scan([Letter(x)] + rest, held, pads) == After(Flush(held + [x]), Scan(rest, [], 0))
  {
    LetterHasItsValue(x);
    assert ([Letter(x)] + rest)[1..] == rest;
  }

  lemma ScansTwo(x: Sextet, y: Sextet, rest: string)
    ensures Scan([Letter(x), Letter(y)] + rest, [], 0) == Scan(rest, [x, y], 0)
  {
    ScansLetter(x, [Letter(y)] + rest, [], 0);
    ScansLetter(y, rest, [x], 0);
    assert [Letter(x), Letter(y)] + rest == [Letter(x)] + ([Letter(y)] + rest);
    assert [] + [x] == [x] && [x] + [y] == [x, y];
  }

  lemma ScansGroup(x: Sextet, y: Sextet, z: Sextet, w: Sextet, rest: string)
    ensures Scan([Letter(x), Letter(y), Letter(z), Letter(w)] + rest, [], 0) == After(Flush([x, y, z, w]), Scan(rest, [], 0))
  {
    var tail := [Letter(z)] + ([Letter(w)] + rest);
    ScansTwo(x, y, tail);
    ScansLetter(z, [Letter(w)] + rest, [x, y], 0);
    ScansFourth(w, rest, [x, y, z], 0);
    assert [Letter(x), Letter(y), Letter(z), Letter(w)] + rest == [Letter(x), Letter(y)] + tail;
    assert [x, y] + [z] == [x, y, z] && [x, y, z] + [w] == [x, y, z, w];
  }

  lemma OneByteHeld(a: Byte, x: Sextet, y: Sextet)
    requires x == First(a) && y == Second(a, 0)
    ensures High(x, y) == a
  {
  }

  lemma TwoBytesHeld(a: Byte, b: Byte, x: Sextet, y: Sextet, z: Sextet)
    requires x == First(a) && y == Second(a, b) && z == Third(b, 0)
    ensures High(x, y) == a && Middle(y, z) == b
  {
  }

  lemma GroupHeld(a: Byte, b: Byte, c: Byte)
    ensures Flush([First(a), Second(a, b), Third(b, c), Fourth(c)]) == [a, b, c]
  {
    SextetsHoldTheBytes(a, b, c);
  }

  /** The encoding without its padding. */
  function Bare(bytes: seq<Byte>): string {
    if |bytes| == 0 then ""
    else if |bytes| == 1 then [Letter(First(bytes[0])), Letter(Second(bytes[0], 0))]
    else if |bytes| == 2 then [Letter(First(bytes[0])), Letter(Second(bytes[0], bytes[1])), Letter(Third(bytes[1], 0))]
    else
      [Letter(First(bytes[0])), Letter(Second(bytes[0], bytes[1])), Letter(Third(bytes[1], bytes[2])), Letter(Fourth(bytes[2]))]
      + Bare(bytes[3..])
  }

  lemma RepadsBehind(head: string, tail: string)
    requires |head| == 4
    ensures Repad(head + tail) == head + Repad(tail)
  {
    assert |head + tail| % 4 == |tail| % 4;
    assert head + tail + Pads(Missing(|tail|)) == head + (tail + Pads(Missing(|tail|)));
  }

  lemma RepadsShort(c: string)
    ensures c == "" ==> Repad(c) == ""
    ensures |c| == 2 ==> Repad(c) == c + [PAD, PAD]
    ensures |c| == 3 ==> Repad(c) == c + [PAD]
  {
    assert Pads(1) == [PAD] + Pads(0) && Pads(2) == [PAD] + Pads(1);
  }

  lemma EncodesShort(bytes: seq<Byte>)
    requires |bytes| < 3
    ensures Encode64(bytes) == Repad(Bare(bytes))
  {
    RepadsShort(Bare(bytes));
  }

  lemma EncodesGroup(bytes: seq<Byte>)
    requires |bytes| >= 3 && Encode64(bytes[3..]) == Repad(Bare(bytes[3..]))
    ensures Encode64(bytes) == Repad(Bare(bytes))
  {
    RepadsBehind(Bare(bytes)[..4], Bare(bytes[3..]));
  }

  lemma {:induction false} EncodesBarePadded(bytes: seq<Byte>)
    ensures Encode64(bytes) == Repad(Bare(bytes))
    decreases |bytes|
  {
    if |bytes| < 3 {
      EncodesShort(bytes);
    } else {
      EncodesBarePadded(bytes[3..]);
      EncodesGroup(bytes);
    }
  }

  predicate UrlSafe(c: char) {
    Value(c).Some? && c != '+' && c != '/'
  }

  lemma LettersAreUrlSafe(s: Sextet)
    ensures UrlSafe(Letter(s)) && Value(Letter(s)) == Some(s)
  {
  }

  lemma UrlSafeIsALetter(c: char)
    requires UrlSafe(c)
    ensures Letter(Value(c).value) == c && c != PAD && c < 128 as char
  {
  }

  lemma RepadIsAscii(c: string)
    requires forall i | 0 <= i < |c| :: UrlSafe(c[i])
    ensures Ascii(Repad(c))
  {
    PadsAre(Missing(|c|));
    forall i | 0 <= i < |c| ensures c[i] < 128 as char { UrlSafeIsALetter(c[i]); }
  }

  lemma PaddingCompletes(k: nat, held: seq<Sextet>)
    requires held == [] || (|held| == 2 && k >= 2) || (|held| == 3 && k >= 1)
    ensures Scan(Pads(k), held, 0) == Some(if held == [] then [] else Flush(held))
    decreases k
  {
    if k > 0 {
      assert Pads(k)[1..] == Pads(k - 1);
      if held == [] {
        PaddingCompletes(k - 1, held);
      } else if |held| == 2 {
        assert Pads(k - 1)[0] == PAD;
        assert Scan(Pads(k - 1), held, 1) == Some(Flush(held));
      }
    }
  }

  lemma OneByteScanned(a: Byte, k: nat)
    requires k >= 2
    ensures Scan(Bare([a]) + Pads(k), [], 0) == Some([a])
  {
    var (x, y) := (First(a), Second(a, 0));
    ScansTwo(x, y, Pads(k));
    PaddingCompletes(k, [x, y]);
    OneByteHeld(a, x, y);
    assert Flush([x, y]) == [High(x, y)];
  }

  lemma TwoBytesScanned(a: Byte, b: Byte, k: nat)
    requires k >= 1
    ensures Scan(Bare([a, b]) + Pads(k), [], 0) == Some([a, b])
  {
    var (x, y, z) := (First(a), Second(a, b), Third(b, 0));
    ScansTwo(x, y, [Letter(z)] + Pads(k));
    ScansLetter(z, Pads(k), [x, y], 0);
    assert Bare([a, b]) + Pads(k) == [Letter(x), Letter(y)] + ([Letter(z)] + Pads(k)) && [x, y] + [z] == [x, y, z];
    PaddingCompletes(k, [x, y, z]);
    TwoBytesHeld(a, b, x, y, z);
    assert Flush([x, y, z]) == [High(x, y), Middle(y, z)];
  }

  lemma MissingBehind(n: nat)
    ensures Missing(n + 4) == Missing(n)
  {
  }

  lemma GroupScanned(a: Byte, b: Byte, c: Byte, tail: string, k: nat)
    ensures Scan([Letter(First(a)), Letter(Second(a, b)), Letter(Third(b, c)), Letter(Fourth(c))] + tail + Pads(k), [], 0)
            == After([a, b, c], Scan(tail + Pads(k), [], 0))
  {
    var head := [Letter(First(a)), Letter(Second(a, b)), Letter(Third(b, c)), Letter(Fourth(c))];
    ScansGroup(First(a), Second(a, b), Third(b, c), Fourth(c), tail + Pads(k));
    assert head + tail + Pads(k) == head + (tail + Pads(k));
    GroupHeld(a, b, c);
  }

  /** The letters of an encoding, with the padding they need or more of it, scan as its bytes. */
  lemma {:induction false} PaddedScans(bytes: seq<Byte>, k: nat)
    requires k >= Missing(|Bare(bytes)|)
    ensures Scan(Bare(bytes) + Pads(k), [], 0) == Some(bytes)
    decreases |bytes|
  {
    if |bytes| == 0 {
      assert Bare(bytes) + Pads(k) == Pads(k);
      PaddingCompletes(k, []);
    } else if |bytes| == 1 {
      assert bytes == [bytes[0]];
      OneByteScanned(bytes[0], k);
    } else if |bytes| == 2 {
      assert bytes == [bytes[0], bytes[1]];
      TwoBytesScanned(bytes[0], bytes[1], k);
    } else {
      var (a, b, c) := (bytes[0], bytes[1], bytes[2]);
      MissingBehind(|Bare(bytes[3..])|);
      PaddedScans(bytes[3..], k);
      GroupScanned(a, b, c, Bare(bytes[3..]), k);
      assert bytes == [a, b, c] + bytes[3..];
    }
  }

  lemma {:induction false} BareIsUrlSafe(bytes: seq<Byte>)
    ensures forall i | 0 <= i < |Bare(bytes)| :: UrlSafe(Bare(bytes)[i])
    decreases |bytes|
  {
    if |bytes| >= 1 { LettersAreUrlSafe(First(bytes[0])); }
    if |bytes| == 1 { LettersAreUrlSafe(Second(bytes[0], 0)); }
    if |bytes| >= 2 { LettersAreUrlSafe(Second(bytes[0], bytes[1])); }
    if |bytes| == 2 { LettersAreUrlSafe(Third(bytes[1], 0)); }
    if |bytes| >= 3 {
      LettersAreUrlSafe(Third(bytes[1], bytes[2]));
      LettersAreUrlSafe(Fourth(bytes[2]));
      BareIsUrlSafe(bytes[3..]);
    }
  }

  /** Decoding inverts encoding. */
  lemma Decodes64(bytes: seq<Byte>)
    ensures Decode64(Encode64(bytes)) == Some(bytes)
  {
    EncodesBarePadded(bytes);
    BareIsUrlSafe(bytes);
    RepadIsAscii(Bare(bytes));
    PaddedScans(bytes, Missing(|Bare(bytes)|));
  }

  /** Stripping takes off the padding and nothing else. */
  lemma StripsPadding(c: string, k: nat)
    requires c == "" || c[|c| - 1] != PAD
    ensures Strip(c + Pads(k)) == c
  {
    PadsAre(k);
    var (s, t) := (c + Pads(k), Strip(c + Pads(k)));
    assert forall i | |c| <= i < |s| :: s[i] == PAD;
    assert |t| <= |c|;
    assert c == "" || s[|c| - 1] != PAD;
    assert |t| >= |c|;
    assert s[..|c|] == c;
  }

  lemma StripsToBare(bytes: seq<Byte>)
    ensures Strip(Encode64(bytes)) == Bare(bytes)
  {
    EncodesBarePadded(bytes);
    BareIsUrlSafe(bytes);
    StripsPadding(Bare(bytes), Missing(|Bare(bytes)|));
  }

  /** The padding stripped from an encoding is exactly what its length makes one put back. */
  lemma PaddingIsRecomputed(bytes: seq<Byte>)
    ensures Repad(Strip(Encode64(bytes))) == Encode64(bytes)
  {
    StripsToBare(bytes);
    EncodesBarePadded(bytes);
  }

  // ----- The cursor -----------------------------------------------------------

  /** The standard library's part: isoformat and its inverse, and what is readable as UTF-8. */
  datatype Library<!Time> = Library(iso: Time -> seq<Byte>, parse: seq<Byte> -> Option<Time>, utf8: seq<Byte> -> bool)

  /** isoformat is parsed back and never holds the separator. */
  ghost predicate Faithful<Time(!new)>(lib: Library<Time>) {
    forall t: Time :: lib.parse(lib.iso(t)) == Some(t) && SEPARATOR !in lib.iso(t)
  }

  function Raw<Time>(lib: Library<Time>, createdAt: Time, id: seq<Byte>): seq<Byte> {
    lib.iso(createdAt) + [SEPARATOR] + id
  }

  function Encode<Time>(lib: Library<Time>, createdAt: Time, id: seq<Byte>): string {
    Strip(Encode64(Raw(lib, createdAt, id)))
  }

  /** partition: what stands before and after the first separator. */
  function Partition(raw: seq<Byte>): (seq<Byte>, seq<Byte>) {
    if raw == [] then ([], [])
    else if raw[0] == SEPARATOR then ([], raw[1..])
    else
      var (before, after) := Partition(raw[1..]);
      ([raw[0]] + before, after)
  }

  function Decode<Time>(lib: Library<Time>, cursor: string): Option<(Time, seq<Byte>)> {
    var raw := Decode64(Repad(cursor));
    if raw.None? || !lib.utf8(raw.value) then None
    else
      var (before, after) := Partition(raw.value);
      if after == [] || lib.parse(before).None? then None else Some((lib.parse(before).value, after))
  }

  lemma {:induction false} PartitionsAtTheFirst(before: seq<Byte>, after: seq<Byte>)
    requires SEPARATOR !in before
    ensures Partition(before + [SEPARATOR] + after) == (before, after)
    decreases |before|
  {
    var raw := before + [SEPARATOR] + after;
    if before == [] {
      assert raw[1..] == after;
    } else {
      PartitionsAtTheFirst(before[1..], after);
      assert raw[1..] == before[1..] + [SEPARATOR] + after;
      assert before == [before[0]] + before[1..];
    }
  }

  /** A cursor decodes to the key it was made of exactly when the companion id is not empty; it is refused otherwise. */
  lemma CursorRoundTrips<Time(!new)>(lib: Library<Time>, createdAt: Time, id: seq<Byte>)
    requires Faithful(lib) && lib.utf8(Raw(lib, createdAt, id))
    ensures Decode(lib, Encode(lib, createdAt, id)) == if id == [] then None else Some((createdAt, id))
  {
    var raw := Raw(lib, createdAt, id);
    PaddingIsRecomputed(raw);
    Decodes64(raw);
    PartitionsAtTheFirst(lib.iso(createdAt), id);
  }

  /** Different keys have different cursors. */
  lemma CursorsAreDistinct<Time(!new)>(lib: Library<Time>, a: Time, i: seq<Byte>, b: Time, j: seq<Byte>)
    requires Faithful(lib) && Encode(lib, a, i) == Encode(lib, b, j)
    ensures a == b && i == j
  {
    PaddingIsRecomputed(Raw(lib, a, i));
    PaddingIsRecomputed(Raw(lib, b, j));
    Decodes64(Raw(lib, a, i));
    Decodes64(Raw(lib, b, j));
    PartitionsAtTheFirst(lib.iso(a), i);
    PartitionsAtTheFirst(lib.iso(b), j);
  }

  // ----- Cursors the server issued ----------------------------------------------

  /** What an encoding looks like once stripped, to be read off a cursor: letters of the URL-safe alphabet, not one over
      whole groups, and no spare bit set in the last one. */
  predicate Canonical(c: string) {
    && (forall i | 0 <= i < |c| :: UrlSafe(c[i]))
    && |c| % 4 != 1
    && (|c| % 4 == 2 ==> Value(c[|c| - 1]).value % 16 == 0)
    && (|c| % 4 == 3 ==> Value(c[|c| - 1]).value % 4 == 0)
  }

  lemma CanonicalTail(head: string, tail: string)
    requires |head| == 4 && forall i | 0 <= i < 4 :: UrlSafe(head[i])
    ensures Canonical(head + tail) <==> Canonical(tail)
  {
    var c := head + tail;
    assert forall i | 0 <= i < |tail| :: tail[i] == c[i + 4];
    assert |c| % 4 == |tail| % 4;
    if tail != [] { assert c[|c| - 1] == tail[|tail| - 1]; }
  }

  lemma {:induction false} BareIsCanonical(bytes: seq<Byte>)
    ensures Canonical(Bare(bytes))
    decreases |bytes|
  {
    BareIsUrlSafe(bytes);
    if |bytes| == 1 {
      LettersAreUrlSafe(Second(bytes[0], 0));
    } else if |bytes| == 2 {
      LettersAreUrlSafe(Third(bytes[1], 0));
    } else if |bytes| >= 3 {
      BareIsCanonical(bytes[3..]);
      CanonicalTail(Bare(bytes)[..4], Bare(bytes[3..]));
    }
  }

  function Worth(c: char): Sextet
    requires UrlSafe(c)
  {
    Value(c).value
  }

  /** The bytes a canonical cursor stands for. */
  function Meant(c: string): seq<Byte>
    requires Canonical(c)
  {
    if c == "" then []
    else if |c| == 2 then [High(Worth(c[0]), Worth(c[1]))]
    else if |c| == 3 then [High(Worth(c[0]), Worth(c[1])), Middle(Worth(c[1]), Worth(c[2]))]
    else
      assert c == c[..4] + c[4..];
      CanonicalTail(c[..4], c[4..]);
      [High(Worth(c[0]), Worth(c[1])), Middle(Worth(c[1]), Worth(c[2])), Low(Worth(c[2]), Worth(c[3]))] + Meant(c[4..])
  }

  lemma BytesHoldTheSextets(x: Sextet, y: Sextet, z: Sextet, w: Sextet)
    ensures First(High(x, y)) == x && Second(High(x, y), Middle(y, z)) == y
    ensures Third(Middle(y, z), Low(z, w)) == z && Fourth(Low(z, w)) == w
  {
  }

  lemma OneByteHoldsTwo(x: Sextet, y: Sextet, a: Byte)
    requires y % 16 == 0 && a == High(x, y)
    ensures First(a) == x && Second(a, 0) == y
  {
  }

  lemma TwoBytesHoldThree(x: Sextet, y: Sextet, z: Sextet, a: Byte, b: Byte)
    requires z % 4 == 0 && a == High(x, y) && b == Middle(y, z)
    ensures First(a) == x && Second(a, b) == y && Third(b, 0) == z
  {
  }

  lemma WorthItsLetter(c: string, i: nat, x: Sextet)
    requires Canonical(c) && i < |c| && x == Worth(c[i])
    ensures Letter(x) == c[i]
  {
    UrlSafeIsALetter(c[i]);
  }

  lemma BareOfOne(c: string, a: Byte)
    requires |c| == 2 && Letter(First(a)) == c[0] && Letter(Second(a, 0)) == c[1]
    ensures Bare([a]) == c
  {
  }

  lemma BareOfTwo(c: string, a: Byte, b: Byte)
    requires |c| == 3 && Letter(First(a)) == c[0] && Letter(Second(a, b)) == c[1] && Letter(Third(b, 0)) == c[2]
    ensures Bare([a, b]) == c
  {
  }

  lemma BareOfThree(c: string, a: Byte, b: Byte, d: Byte, rest: seq<Byte>)
    requires |c| == 4 && Letter(First(a)) == c[0] && Letter(Second(a, b)) == c[1] && Letter(Third(b, d)) == c[2] && Letter(Fourth(d)) == c[3]
    ensures Bare([a, b, d] + rest) == c + Bare(rest)
  {
    assert ([a, b, d] + rest)[3..] == rest;
  }

  lemma OneMeant(c: string, x: Sextet, y: Sextet)
    requires c == [Letter(x), Letter(y)] && y % 16 == 0
    ensures Bare([High(x, y)]) == c
  {
    OneByteHoldsTwo(x, y, High(x, y));
    BareOfOne(c, High(x, y));
  }

  lemma TwoMeant(c: string, x: Sextet, y: Sextet, z: Sextet)
    requires c == [Letter(x), Letter(y), Letter(z)] && z % 4 == 0
    ensures Bare([High(x, y), Middle(y, z)]) == c
  {
    TwoBytesHoldThree(x, y, z, High(x, y), Middle(y, z));
    BareOfTwo(c, High(x, y), Middle(y, z));
  }

  lemma NothingToSpare(c: string)
    requires Canonical(c)
    ensures |c| == 2 ==> Worth(c[1]) % 16 == 0
    ensures |c| == 3 ==> Worth(c[2]) % 4 == 0
  {
  }

  lemma TwoLettersMeant(c: string)
    requires Canonical(c) && |c| == 2
    ensures Bare(Meant(c)) == c
  {
    var (x, y) := (Worth(c[0]), Worth(c[1]));
    WorthItsLetter(c, 0, x);
    WorthItsLetter(c, 1, y);
    NothingToSpare(c);
    OneMeant(c, x, y);
  }

  lemma ThreeLettersMeant(c: string)
    requires Canonical(c) && |c| == 3
    ensures Bare(Meant(c)) == c
  {
    var (x, y, z) := (Worth(c[0]), Worth(c[1]), Worth(c[2]));
    WorthItsLetter(c, 0, x);
    WorthItsLetter(c, 1, y);
    WorthItsLetter(c, 2, z);
    NothingToSpare(c);
    TwoMeant(c, x, y, z);
  }

  lemma LongMeant(c: string)
    requires Canonical(c) && |c| >= 4 && Canonical(c[4..])
    ensures Bare(Meant(c)) == c[..4] + Bare(Meant(c[4..]))
  {
    var (x, y, z, w) := (Worth(c[0]), Worth(c[1]), Worth(c[2]), Worth(c[3]));
    WorthItsLetter(c, 0, x);
    WorthItsLetter(c, 1, y);
    WorthItsLetter(c, 2, z);
    WorthItsLetter(c, 3, w);
    BytesHoldTheSextets(x, y, z, w);
    BareOfThree(c[..4], High(x, y), Middle(y, z), Low(z, w), Meant(c[4..]));
  }

  lemma {:induction false} BareOfMeant(c: string)
    requires Canonical(c)
    ensures Bare(Meant(c)) == c
    decreases |c|
  {
    if |c| == 2 {
      TwoLettersMeant(c);
    } else if |c| == 3 {
      ThreeLettersMeant(c);
    } else if c != "" {
      assert c == c[..4] + c[4..];
      CanonicalTail(c[..4], c[4..]);
      LongMeant(c);
      BareOfMeant(c[4..]);
    }
  }

  /** The canonical cursors are exactly the stripped encodings. */
  lemma EncodingsAreCanonical(bytes: seq<Byte>)
    ensures Canonical(Strip(Encode64(bytes)))
  {
    StripsToBare(bytes);
    BareIsCanonical(bytes);
  }

  lemma CanonicalReencodes(c: string)
    requires Canonical(c)
    ensures Decode64(Repad(c)).Some? && Strip(Encode64(Decode64(Repad(c)).value)) == c
  {
    var bytes := Meant(c);
    BareOfMeant(c);
    EncodesBarePadded(bytes);
    Decodes64(bytes);
    StripsToBare(bytes);
  }

  /** Some key has this cursor. */
  ghost predicate Issued<Time(!new)>(lib: Library<Time>, c: string) {
    exists createdAt: Time, id :: c == Encode(lib, createdAt, id)
  }

  lemma {:induction false} PartitionJoins(raw: seq<Byte>)
    requires Partition(raw).1 != []
    ensures raw == Partition(raw).0 + [SEPARATOR] + Partition(raw).1
    decreases |raw|
  {
    if raw[0] != SEPARATOR { PartitionJoins(raw[1..]); }
  }

  lemma IssuedDecodesToItsKey<Time(!new)>(lib: Library<Time>, createdAt: Time, id: seq<Byte>)
    requires Faithful(lib)
    ensures var c := Encode(lib, createdAt, id);
            && Canonical(c) && Decode64(Repad(c)) == Some(Raw(lib, createdAt, id))
            && Partition(Raw(lib, createdAt, id)) == (lib.iso(createdAt), id)
  {
    var raw := Raw(lib, createdAt, id);
    PaddingIsRecomputed(raw);
    Decodes64(raw);
    EncodingsAreCanonical(raw);
    PartitionsAtTheFirst(lib.iso(createdAt), id);
  }

  /** When exactly an accepted cursor is one the server issued: it is canonical and spells the time as the server does. Then
      it was issued for the key it decodes to. */
  lemma DecodedIsIssuedExactlyWhen<Time(!new)>(lib: Library<Time>, c: string, createdAt: Time, id: seq<Byte>)
    requires Faithful(lib) && Decode(lib, c) == Some((createdAt, id))
    ensures Issued(lib, c) <==> c == Encode(lib, createdAt, id)
    ensures Issued(lib, c) <==> Canonical(c) && Partition(Decode64(Repad(c)).value).0 == lib.iso(createdAt)
  {
    var raw := Decode64(Repad(c)).value;
    if Canonical(c) && Partition(raw).0 == lib.iso(createdAt) {
      PartitionJoins(raw);
      CanonicalReencodes(c);
      assert c == Encode(lib, createdAt, id);
    }
    if Issued(lib, c) {
      var t, i :| c == Encode(lib, t, i);
      IssuedDecodesToItsKey(lib, t, i);
    }
  }

  /** Every accepted cursor decodes as exactly one canonical one does. */
  lemma AcceptedLikeItsCanonicalForm<Time>(lib: Library<Time>, c: string, k: string)
    requires Decode(lib, c).Some? && k == Strip(Encode64(Decode64(Repad(c)).value))
    ensures Canonical(k) && Decode(lib, k) == Decode(lib, c) && (k == c <==> Canonical(c))
  {
    var raw := Decode64(Repad(c)).value;
    EncodingsAreCanonical(raw);
    PaddingIsRecomputed(raw);
    Decodes64(raw);
    if Canonical(c) { CanonicalReencodes(c); }
  }

  lemma OnePadMore(c: string)
    ensures Repad(c + [PAD]) == c + Pads(if |c| % 4 == 0 then 4 else Missing(|c|))
  {
    var k := Missing(|c| + 1);
    assert c + [PAD] + Pads(k) == c + ([PAD] + Pads(k));
    assert [PAD] + Pads(k) == Pads(k + 1);
  }

  /** Issued by nobody and accepted all the same: any issued cursor with one pad of its own. */
  lemma OwnPaddingIsAccepted<Time(!new)>(lib: Library<Time>, createdAt: Time, id: seq<Byte>)
    requires Faithful(lib) && lib.utf8(Raw(lib, createdAt, id)) && id != []
    ensures var c := Encode(lib, createdAt, id) + [PAD];
            Decode(lib, c) == Some((createdAt, id)) && !Issued(lib, c)
  {
    var (raw, bare) := (Raw(lib, createdAt, id), Encode(lib, createdAt, id));
    var c := bare + [PAD];
    StripsToBare(raw);
    BareIsUrlSafe(raw);
    OnePadMore(bare);
    PaddedScans(raw, if |bare| % 4 == 0 then 4 else Missing(|bare|));
    OnlyAsciiIsPadded(bare);
    PartitionsAtTheFirst(lib.iso(createdAt), id);
    DecodedIsIssuedExactlyWhen(lib, c, createdAt, id);
    assert c[|bare|] == PAD;
  }

  lemma OnlyAsciiIsPadded(bare: string)
    requires forall i | 0 <= i < |bare| :: UrlSafe(bare[i])
    ensures Ascii(Repad(bare + [PAD]))
  {
    PaddedAscii(bare + [PAD]);
    forall i | 0 <= i < |bare| ensures bare[i] < 128 as char { UrlSafeIsALetter(bare[i]); }
  }

  /** One byte over whole groups, its second letter with some of the spare bits set. */
  function WithSpare(bytes: seq<Byte>, spare: nat): string
    requires OneOver(bytes) && spare < 16
  {
    if |bytes| == 1 then [Letter(First(bytes[0])), Letter(Second(bytes[0], 0) + spare)]
    else Bare(bytes)[..4] + WithSpare(bytes[3..], spare)
  }

  predicate OneOver(bytes: seq<Byte>) {
    |bytes| == 1 || (|bytes| > 3 && OneOver(bytes[3..]))
  }

  lemma OneWithSpare(a: Byte, spare: nat, c: string)
    requires spare < 16 && c == WithSpare([a], spare)
    ensures |c| == 2 && UrlSafe(c[0]) && UrlSafe(c[1]) && Repad(c) == c + Pads(2)
    ensures Scan(c + Pads(2), [], 0) == Some([a]) && (Canonical(c) <==> spare == 0)
  {
    var (x, y) := (First(a), Second(a, 0) + spare);
    LettersAreUrlSafe(x);
    LettersAreUrlSafe(y);
    ScansTwo(x, y, Pads(2));
    PaddingCompletes(2, [x, y]);
    assert Flush([x, y]) == [High(x, y)];
  }

  lemma {:induction false} SpareScans(bytes: seq<Byte>, spare: nat)
    requires OneOver(bytes) && spare < 16
    ensures Scan(WithSpare(bytes, spare) + Pads(2), [], 0) == Some(bytes)
    decreases |bytes|
  {
    if |bytes| == 1 {
      assert bytes == [bytes[0]];
      OneWithSpare(bytes[0], spare, WithSpare(bytes, spare));
    } else {
      SpareScans(bytes[3..], spare);
      GroupScanned(bytes[0], bytes[1], bytes[2], WithSpare(bytes[3..], spare), 2);
      assert bytes == [bytes[0], bytes[1], bytes[2]] + bytes[3..];
    }
  }

  /** What a whole group in front leaves as it is. */
  lemma InFront(head: string, tail: string)
    requires |head| == 4 && (forall i | 0 <= i < 4 :: UrlSafe(head[i]))
    requires (forall i | 0 <= i < |tail| :: UrlSafe(tail[i])) && Repad(tail) == tail + Pads(2)
    ensures (forall i | 0 <= i < |head + tail| :: UrlSafe((head + tail)[i])) && Repad(head + tail) == head + tail + Pads(2)
    ensures Canonical(head + tail) <==> Canonical(tail)
  {
    RepadsBehind(head, tail);
    CanonicalTail(head, tail);
    assert head + (tail + Pads(2)) == head + tail + Pads(2);
  }

  lemma {:induction false} SpareLooks(bytes: seq<Byte>, spare: nat, c: string)
    requires OneOver(bytes) && spare < 16 && c == WithSpare(bytes, spare)
    ensures (forall i | 0 <= i < |c| :: UrlSafe(c[i])) && Repad(c) == c + Pads(2) && (Canonical(c) <==> spare == 0)
    decreases |bytes|
  {
    if |bytes| == 1 {
      assert bytes == [bytes[0]];
      OneWithSpare(bytes[0], spare, c);
    } else {
      SpareLooks(bytes[3..], spare, WithSpare(bytes[3..], spare));
      BareIsUrlSafe(bytes);
      InFront(Bare(bytes)[..4], WithSpare(bytes[3..], spare));
    }
  }

  /** Letters alone do not make the difference: with spare bits set a cursor is accepted for a key whose cursor is another. */
  lemma SpareBitsAreAccepted<Time(!new)>(lib: Library<Time>, createdAt: Time, id: seq<Byte>, spare: nat)
    requires Faithful(lib) && lib.utf8(Raw(lib, createdAt, id)) && id != []
    requires OneOver(Raw(lib, createdAt, id)) && 0 < spare < 16
    ensures var c := WithSpare(Raw(lib, createdAt, id), spare);
            && (forall i | 0 <= i < |c| :: UrlSafe(c[i]))
            && Decode(lib, c) == Some((createdAt, id)) && !Issued(lib, c)
  {
    var c := WithSpare(Raw(lib, createdAt, id), spare);
    SpareLooks(Raw(lib, createdAt, id), spare, c);
    SpareScans(Raw(lib, createdAt, id), spare);
    RepadIsAscii(c);
    PartitionsAtTheFirst(lib.iso(createdAt), id);
    DecodedIsIssuedExactlyWhen(lib, c, createdAt, id);
  }

  // ----- Foreign characters -------------------------------------------------------

  predicate Foreign(c: char) {
    c != PAD && Value(c).None?
  }

  function WithoutForeign(s: string): string {
    if s == "" then "" else (if Foreign(s[0]) then "" else [s[0]]) + WithoutForeign(s[1..])
  }

  /** Characters of neither alphabet do not matter to the bytes read. */
  lemma {:induction false} ForeignCharactersAreSkipped(s: string, held: seq<Sextet>, pads: nat)
    requires |held| < 4
    ensures Scan(s, held, pads) == Scan(WithoutForeign(s), held, pads)
    decreases |s|
  {
    if s != "" {
      var rest := WithoutForeign(s[1..]);
      if Foreign(s[0]) {
        ForeignCharactersAreSkipped(s[1..], held, pads);
        assert WithoutForeign(s) == rest;
      } else {
        assert WithoutForeign(s)[1..] == rest;
        if s[0] == PAD {
          ForeignCharactersAreSkipped(s[1..], held, if |held| >= 2 then pads + 1 else pads);
        } else if |held| == 3 {
          ForeignCharactersAreSkipped(s[1..], [], 0);
        } else {
          ForeignCharactersAreSkipped(s[1..], held + [Value(s[0]).value], 0);
        }
      }
    }
  }

  // ----- When base64 refuses ----------------------------------------------------

  /** How many characters carry data. */
  function DataLength(s: string): nat {
    if s == "" then 0 else (if Value(s[0]).Some? then 1 else 0) + DataLength(s[1..])
  }

  lemma {:induction false} DataAppended(s: string, c: char)
    ensures DataLength(s + [c]) == DataLength(s) + if Value(c).Some? then 1 else 0
    decreases |s|
  {
    if s == "" {
      assert s + [c] == [c];
    } else {
      DataAppended(s[1..], c);
      assert (s + [c])[1..] == s[1..] + [c];
    }
  }

  /** The data characters before i that are in no whole group. */
  function Open(s: string, i: nat): nat
    requires i <= |s|
  {
    DataLength(s[..i]) % 4
  }

  /** There is padding before i and no data character behind it. */
  predicate Padded(s: string, i: nat)
    requires i <= |s|
  {
    exists j | 0 <= j < i :: s[j] == PAD && forall k | j <= k < i :: Value(s[k]).None?
  }

  /** The padding at i completes a group: three characters wait for it, or two that had padding already. */
  predicate CompletesAt(s: string, i: nat)
    requires i < |s|
  {
    s[i] == PAD && (Open(s, i) == 3 || (Open(s, i) == 2 && Padded(s, i)))
  }

  /** The scan's state before character i, as long as nothing before i completed a group. */
  predicate Held(s: string, i: nat, held: seq<Sextet>, pads: nat)
    requires i <= |s|
  {
    |held| == Open(s, i) && pads == if |held| == 2 && Padded(s, i) then 1 else 0
  }

  lemma OpenAfter(s: string, i: nat)
    requires i < |s|
    ensures Open(s, i + 1) == if Value(s[i]).None? then Open(s, i) else if Open(s, i) == 3 then 0 else Open(s, i) + 1
  {
    DataAppended(s[..i], s[i]);
    assert s[..i + 1] == s[..i] + [s[i]];
  }

  lemma PaddedAfter(s: string, i: nat)
    requires i < |s|
    ensures Padded(s, i + 1) <==> s[i] == PAD || (Value(s[i]).None? && Padded(s, i))
  {
    if s[i] == PAD {
      assert forall k | i <= k < i + 1 :: Value(s[k]).None?;
    }
  }

  /** From any such state the scan succeeds exactly when some padding still completes a group, or the data fill whole groups. */
  lemma {:induction false} ScansExactlyWhen(s: string, i: nat, held: seq<Sextet>, pads: nat)
    requires i <= |s| && Held(s, i, held, pads)
    ensures Scan(s[i..], held, pads).Some? <==> Open(s, |s|) == 0 || exists j | i <= j < |s| :: CompletesAt(s, j)
    decreases |s| - i
  {
    if i < |s| {
      OpenAfter(s, i);
      PaddedAfter(s, i);
      assert s[i..][0] == s[i] && s[i..][1..] == s[i + 1..];
      if !CompletesAt(s, i) {
        if s[i] == PAD {
          ScansExactlyWhen(s, i + 1, held, if |held| >= 2 then pads + 1 else pads);
        } else if Value(s[i]).None? {
          ScansExactlyWhen(s, i + 1, held, pads);
        } else {
          ScansExactlyWhen(s, i + 1, if |held| == 3 then [] else held + [Value(s[i]).value], 0);
        }
      }
    } else {
      assert s[i..] == "";
    }
  }

  lemma PaddedAscii(s: string)
    ensures Ascii(Repad(s)) <==> Ascii(s)
  {
    PadsAre(Missing(|s|));
    assert forall i | 0 <= i < |s| :: Repad(s)[i] == s[i];
  }

  /** When exactly base64 refuses a cursor, any string whatever: it is not ASCII, or with the padding that its length calls
      for its data characters leave a group open and no padding completes one. */
  lemma RefusedExactlyWhen(s: string)
    ensures Decode64(Repad(s)).None? <==>
              !Ascii(s) || (Open(Repad(s), |Repad(s)|) != 0 && forall i | 0 <= i < |Repad(s)| :: !CompletesAt(Repad(s), i))
  {
    var padded := Repad(s);
    PaddedAscii(s);
    assert padded[..0] == "" && padded[0..] == padded;
    ScansExactlyWhen(padded, 0, [], 0);
  }

  lemma {:induction false} AllData(s: string, k: nat)
    requires forall i | 0 <= i < |s| :: Value(s[i]).Some?
    ensures DataLength(s + Pads(k)) == |s|
    decreases |s|, k
  {
    if s != "" {
      AllData(s[1..], k);
      assert (s + Pads(k))[1..] == s[1..] + Pads(k);
    } else if k > 0 {
      AllData(s, k - 1);
      assert (s + Pads(k))[1..] == Pads(k - 1) && s + Pads(k - 1) == Pads(k - 1);
    }
  }

  lemma LettersOpen(s: string, k: nat)
    requires forall i | 0 <= i < |s| :: Value(s[i]).Some?
    ensures forall i | |s| <= i <= |s + Pads(k)| :: Open(s + Pads(k), i) == |s| % 4
  {
    PadsAre(k);
    forall i | |s| <= i <= |s + Pads(k)| ensures Open(s + Pads(k), i) == |s| % 4 {
      PadsAre(i - |s|);
      assert (s + Pads(k))[..i] == s + Pads(i - |s|);
      AllData(s, i - |s|);
    }
  }

  /** Of the cursors made of letters only, it refuses exactly those one longer than whole groups. */
  lemma LettersRefusedExactlyWhen(s: string)
    requires forall i | 0 <= i < |s| :: Value(s[i]).Some?
    ensures Decode64(Repad(s)).None? <==> |s| % 4 == 1
  {
    var u := Repad(s);
    PadsAre(Missing(|s|));
    LettersOpen(s, Missing(|s|));
    RefusedExactlyWhen(s);
    assert forall i | 0 <= i < |s| :: u[i] == s[i] != PAD;
    if |s| % 4 == 2 {
      assert u[|s|] == PAD && Value(u[|s|]).None?;
      assert Padded(u, |s| + 1) && CompletesAt(u, |s| + 1);
    } else if |s| % 4 == 3 {
      assert CompletesAt(u, |s|);
    }
  }
}
