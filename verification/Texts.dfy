/** Text as the validator sees it: UTF-8 lengths, character classes, the byte order of
    names, and the scan for private keys. */
module Texts {
  import Listings

  // ----- UTF-8 -----

  type Bytes = seq<nat>

  function EncodeChar(c: char): (bytes: Bytes)
    ensures 1 <= |bytes| <= 4
    ensures forall i :: 0 <= i < |bytes| && bytes[i] < 0x80 ==> bytes == [c as int]
  {
    var n := c as int;
    if n < 0x80 then [n]
    else if n < 0x800 then [0xC0 + n / 0x40, 0x80 + n % 0x40]
    else if n < 0x1_0000 then [0xE0 + n / 0x1000, 0x80 + n / 0x40 % 0x40, 0x80 + n % 0x40]
    else [0xF0 + n / 0x4_0000, 0x80 + n / 0x1000 % 0x40, 0x80 + n / 0x40 % 0x40, 0x80 + n % 0x40]
  }

  predicate IsContinuation(b: nat) {
    0x80 <= b < 0xC0
  }

  /** What a decoder reads back from a sequence of the right form, and nothing from any other: the lead byte tells
      the length, continuation bytes follow, and no shorter sequence would do. */
  function DecodeChar(bytes: Bytes): int {
    if |bytes| == 1 && bytes[0] < 0x80 then bytes[0]
    else if |bytes| == 2 && 0xC2 <= bytes[0] < 0xE0 && IsContinuation(bytes[1]) then
      (bytes[0] - 0xC0) * 0x40 + bytes[1] - 0x80
    else if |bytes| == 3 && 0xE0 <= bytes[0] < 0xF0 && IsContinuation(bytes[1]) && IsContinuation(bytes[2])
            && (bytes[0] == 0xE0 ==> bytes[1] >= 0xA0) then
      (bytes[0] - 0xE0) * 0x1000 + (bytes[1] - 0x80) * 0x40 + bytes[2] - 0x80
    else if |bytes| == 4 && 0xF0 <= bytes[0] < 0xF5 && IsContinuation(bytes[1]) && IsContinuation(bytes[2])
            && IsContinuation(bytes[3]) && (bytes[0] == 0xF0 ==> bytes[1] >= 0x90) then
      (bytes[0] - 0xF0) * 0x4_0000 + (bytes[1] - 0x80) * 0x1000 + (bytes[2] - 0x80) * 0x40 + bytes[3] - 0x80
    else -1
  }

  /** The six-bit digits of a number. */
  lemma SixBitDigits(n: nat)
    ensures n == n / 0x40 * 0x40 + n % 0x40
    ensures n / 0x40 == n / 0x1000 * 0x40 + n / 0x40 % 0x40
    ensures n / 0x1000 == n / 0x4_0000 * 0x40 + n / 0x1000 % 0x40
  {
    assert n / 0x40 / 0x40 == n / 0x1000;
    assert n / 0x1000 / 0x40 == n / 0x4_0000;
  }

  lemma EveryCharIsRead(c: char)
    ensures DecodeChar(EncodeChar(c)) == c as int
  {
    var n := c as int;
    SixBitDigits(n);
    if n < 0x800 {
    } else if n < 0x1_0000 {
      ThreeBytesAreRead(n);
    } else {
      FourBytesAreRead(n);
    }
  }

  lemma ThreeBytesAreRead(n: nat)
    requires 0x800 <= n < 0x1_0000
    ensures DecodeChar([0xE0 + n / 0x1000, 0x80 + n / 0x40 % 0x40, 0x80 + n % 0x40]) == n
  {
    SixBitDigits(n);
  }

  lemma FourBytesAreRead(n: nat)
    requires 0x1_0000 <= n < 0x11_0000
    ensures DecodeChar([0xF0 + n / 0x4_0000, 0x80 + n / 0x1000 % 0x40, 0x80 + n / 0x40 % 0x40, 0x80 + n % 0x40]) == n
  {
    SixBitDigits(n);
  }

  function Utf8(text: string): Bytes {
    if text == "" then [] else EncodeChar(text[0]) + Utf8(text[1..])
  }

  /** The length that size limits speak of. */
  function ByteLength(text: string): nat {
    |Utf8(text)|
  }

  predicate IsAscii(text: string) {
    forall i :: 0 <= i < |text| ==> text[i] as int < 0x80
  }

  lemma {:induction false} Utf8OfAscii(text: string)
    requires IsAscii(text)
    ensures |Utf8(text)| == |text| && forall i :: 0 <= i < |text| ==> Utf8(text)[i] == text[i] as int
  {
    if text != "" {
      Utf8OfAscii(text[1..]);
    }
  }

  lemma {:induction false} Utf8OfConcat(a: string, b: string)
    ensures Utf8(a + b) == Utf8(a) + Utf8(b)
  {
    if a == "" {
      assert a + b == b;
    } else {
      assert (a + b)[1..] == a[1..] + b;
      Utf8OfConcat(a[1..], b);
    }
  }

  // ----- Character classes -----

  predicate IsControl(c: char) {
    var n := c as int;
    n < 0x20 || 0x7F <= n < 0xA0
  }

  predicate IsWhitespace(c: char) {
    var n := c as int;
    9 <= n <= 13 || n in {0x20, 0x85, 0xA0, 0x1680, 0x2028, 0x2029, 0x202F, 0x205F, 0x3000} || 0x2000 <= n <= 0x200A
  }

  predicate HasControl(text: string) {
    exists c :: c in text && IsControl(c)
  }

  predicate HasWhitespace(text: string) {
    exists c :: c in text && IsWhitespace(c)
  }

  /** `trim` leaves nothing. */
  predicate IsBlank(text: string) {
    forall c :: c in text ==> IsWhitespace(c)
  }

  // ----- Private keys -----

  const SECRET_SEED_LENGTH := 56

  /** The texts that decode as secret seeds. Such a text is 56 ASCII characters, the first an S. */
  type Seeds = s: iset<string> | forall x :: x in s ==> |x| == SECRET_SEED_LENGTH && IsAscii(x) && x[0] == 'S'
    witness iset{}

  function TextOfAscii(bytes: Bytes): string
    requires forall i :: 0 <= i < |bytes| ==> bytes[i] < 0x80
  {
    seq(|bytes|, i requires 0 <= i < |bytes| => bytes[i] as char)
  }

  /** The scan over all 56-byte windows of the encoded text. */
  predicate ContainsPrivateKey(seeds: Seeds, value: string) {
    var bytes := Utf8(value);
    exists at :: 0 <= at <= |bytes| - SECRET_SEED_LENGTH && SeedAt(seeds, bytes, at)
  }

  predicate SeedAt(seeds: Seeds, bytes: Bytes, at: nat)
    requires at + SECRET_SEED_LENGTH <= |bytes|
  {
    var window := bytes[at..at + SECRET_SEED_LENGTH];
    window[0] == 'S' as int && (forall i :: 0 <= i < |window| ==> window[i] < 0x80) && TextOfAscii(window) in seeds
  }

  ghost predicate HoldsSeed(seeds: Seeds, value: string) {
    exists before, seed, after :: seed in seeds && value == before + seed + after
  }

  lemma SeedIsFound(seeds: Seeds, before: string, seed: string, after: string)
    requires seed in seeds
    ensures ContainsPrivateKey(seeds, before + seed + after)
  {
    Utf8OfConcat(before + seed, after);
    Utf8OfConcat(before, seed);
    Utf8OfAscii(seed);
    var at, bytes := |Utf8(before)|, Utf8(before + seed + after);
    var window := bytes[at..at + SECRET_SEED_LENGTH];
    assert window == Utf8(seed);
    assert TextOfAscii(window) == seed;
    assert SeedAt(seeds, bytes, at);
  }

  lemma FoundIsSeed(seeds: Seeds, value: string)
    requires ContainsPrivateKey(seeds, value)
    ensures HoldsSeed(seeds, value)
  {
    var bytes := Utf8(value);
    var at :| 0 <= at <= |bytes| - SECRET_SEED_LENGTH && SeedAt(seeds, bytes, at);
    var window := bytes[at..at + SECRET_SEED_LENGTH];
    var start := AsciiWindow(value, at, window);
    assert value == value[..start] + TextOfAscii(window) + value[start + |window|..];
  }

  /** The byte scan finds a seed at every offset, next to any character, and nothing else. */
  lemma ScanFindsExactlyTheSeeds(seeds: Seeds, value: string)
    ensures ContainsPrivateKey(seeds, value) <==> HoldsSeed(seeds, value)
  {
    if before, seed, after :| seed in seeds && value == before + seed + after {
      SeedIsFound(seeds, before, seed, after);
    }
    if ContainsPrivateKey(seeds, value) {
      FoundIsSeed(seeds, value);
    }
  }

  /** A window of ASCII bytes starts at a character and spells the characters that follow. */
  lemma {:induction false} AsciiWindow(value: string, at: nat, window: Bytes) returns (start: nat)
    requires at + |window| <= |Utf8(value)| && window == Utf8(value)[at..at + |window|] && window != []
    requires forall i :: 0 <= i < |window| ==> window[i] < 0x80
    ensures start + |window| <= |value| && value[start..start + |window|] == TextOfAscii(window)
  {
    hide EncodeChar;
    var first, rest := EncodeChar(value[0]), Utf8(value[1..]);
    if |first| <= at {
      assert window == rest[at - |first|..at - |first| + |window|];
      start := AsciiWindow(value[1..], at - |first|, window);
      start := start + 1;
      SliceOfTail(value, start, |window|);
    } else {
      start := 0;
      assert Utf8(value)[at] == first[at] == window[0];
      assert at == 0;
      AsciiPrefix(value, window);
    }
  }

  lemma SliceOfTail(s: string, start: nat, n: nat)
    requires 0 < start && start + n <= |s|
    ensures s[start..start + n] == s[1..][start - 1..start - 1 + n]
  {
    var a, b := s[start..start + n], s[1..][start - 1..start - 1 + n];
    assert |a| == |b| && forall i :: 0 <= i < n ==> a[i] == s[start + i] == b[i];
  }

  lemma {:induction false} AsciiPrefix(value: string, window: Bytes)
    requires |window| <= |Utf8(value)| && window == Utf8(value)[..|window|]
    requires forall i :: 0 <= i < |window| ==> window[i] < 0x80
    ensures |window| <= |value| && value[..|window|] == TextOfAscii(window)
  {
    if window != [] {
      hide EncodeChar;
      var first, rest := EncodeChar(value[0]), Utf8(value[1..]);
      assert first[0] == window[0];
      assert window[1..] == rest[..|window| - 1];
      AsciiPrefix(value[1..], window[1..]);
      assert value[..|window|] == [value[0]] + value[1..][..|window| - 1];
      assert TextOfAscii(window) == [value[0]] + TextOfAscii(window[1..]);
    }
  }

  // ----- Name order -----

  /** The order of names in sorted maps: by character, which for UTF-8 is also by byte. */
  predicate Before(a: string, b: string) {
    b != "" && (a == "" || a[0] < b[0] || (a[0] == b[0] && Before(a[1..], b[1..])))
  }

  lemma {:induction false} BeforeIsTotal(a: string, b: string)
    ensures a == b || Before(a, b) || Before(b, a)
    ensures !(Before(a, b) && Before(b, a)) && !Before(a, a)
  {
    if a != "" { BeforeIsTotal(a[1..], a[1..]); }
    if a != "" && b != "" && a[0] == b[0] {
      BeforeIsTotal(a[1..], b[1..]);
      assert a == [a[0]] + a[1..] && b == [b[0]] + b[1..];
    }
  }

  lemma {:induction false} BeforeIsTransitive(a: string, b: string, c: string)
    requires Before(a, b) && Before(b, c)
    ensures Before(a, c)
  {
    if a != "" && a[0] == b[0] && b[0] == c[0] { BeforeIsTransitive(a[1..], b[1..], c[1..]); }
  }

  /** The iteration order of a set of names. */
  ghost function Sorted(names: set<string>): (sorted: seq<string>)
    ensures Listings.Lists(Before, sorted, names)
  {
    NamesAreOrdered();
    Listings.Listing(Before, names)
  }

  lemma NamesAreOrdered()
    ensures Listings.IsOrder(Before)
  {
    forall a, b ensures a == b || Before(a, b) || Before(b, a) { BeforeIsTotal(a, b); }
    forall a ensures !Before(a, a) { BeforeIsTotal(a, a); }
    forall a, b, c | Before(a, b) && Before(b, c) ensures Before(a, c) { BeforeIsTransitive(a, b, c); }
  }

  method SortNames(names: set<string>) returns (sorted: seq<string>)
    ensures sorted == Sorted(names)
  {
    NamesAreOrdered();
    sorted := Listings.ListInOrder(Before, names);
    Listings.OnlyOneListing(Before, sorted, Sorted(names), names);
  }
}
