// decodeAddress of gps/libloc_api_50001/LocApiAdapter.cpp: semi-octet addresses as in
// 3GPP TS 23.040 sections 9.1.2.3 and 9.1.2.5, international number (0x91) only.
module Addresses {

  newtype Octet = x: int | 0 <= x < 256

  const ADDR_PREFIX: Octet := 0x91

  function DigitChar(n: nat): char
    requires n <= 9
  {
    '0' + n as char
  }

  /** The digits in one octet, low half first; halves above 9 are fillers. */
  function OctetDigits(o: Octet): (s: string)
    ensures |s| <= 2
  {
    var low, high := o as nat % 16, o as nat / 16;
    (if low <= 9 then [DigitChar(low)] else []) + (if high <= 9 then [DigitChar(high)] else [])
  }

  function Digits(octets: seq<Octet>): string {
    if octets == [] then "" else Digits(octets[..|octets| - 1]) + OctetDigits(octets[|octets| - 1])
  }

  function Take(s: string, n: int): (r: string)
    ensures r <= s
  {
    if n < 0 then "" else if |s| <= n then s else s[..n]
  }

  /** The buffer's first n characters are the text, cut to what fits before the NUL. */
  predicate Spelled(buffer: seq<char>, n: int, stringSize: int, text: string) {
    && 0 <= n < |buffer|
    && (n == 0 || n < stringSize)
    && buffer[..n] == Take(text, stringSize - 1)
  }

  function HalfDigit(half: nat): string {
    if half <= 9 then [DigitChar(half)] else []
  }

  /** Appends one half octet to the string if it is a digit and there is room for it. */
  method PutDigit(addr: array<char>, n: int, stringSize: int, half: nat, ghost text: string) returns (n': int)
    requires stringSize <= addr.Length && Spelled(addr[..], n, stringSize, text)
    modifies addr
    ensures Spelled(addr[..], n', stringSize, text + HalfDigit(half))
    ensures n <= n' && forall j :: n' <= j < addr.Length ==> addr[j] == old(addr[j])
  {
    n' := n;
    if half <= 9 && n < stringSize - 1 {
      addr[n] := DigitChar(half);
      n' := n + 1;
    }
  }

  lemma HalvesAreOctet(ch: Octet, text: string)
    ensures text + HalfDigit(ch as nat % 16) + HalfDigit(ch as nat / 16) == text + OctetDigits(ch)
  {
  }

  method PutOctet(addr: array<char>, n: int, stringSize: int, ch: Octet, ghost text: string) returns (n': int)
    requires stringSize <= addr.Length && Spelled(addr[..], n, stringSize, text)
    modifies addr
    ensures Spelled(addr[..], n', stringSize, text + OctetDigits(ch))
    ensures n <= n' && forall j :: n' <= j < addr.Length ==> addr[j] == old(addr[j])
  {
    hide Spelled, HalfDigit, OctetDigits;
    var low, hi := ch as nat % 16, ch as nat / 16;
    n' := PutDigit(addr, n, stringSize, low, text);
    n' := PutDigit(addr, n', stringSize, hi, text + HalfDigit(low));
    HalvesAreOctet(ch, text);
  }

  /** The digits an address of dataSize octets holds; none without the prefix. */
  function Decoded(data: seq<Octet>, dataSize: int): string
    requires 1 <= |data| && dataSize <= |data|
  {
    if data[0] != ADDR_PREFIX || dataSize <= 1 then "" else Digits(data[1..dataSize])
  }

  lemma NothingSpelled(buffer: seq<char>, stringSize: int)
    requires |buffer| >= 1
    ensures Spelled(buffer, 0, stringSize, "")
  {
  }

  method DecodeOctets(addr: array<char>, stringSize: int, data: array<Octet>, dataSize: int) returns (n: int)
    requires addr.Length >= 1 && stringSize <= addr.Length
    requires data.Length >= 1 && dataSize <= data.Length && data[0] == ADDR_PREFIX
    modifies addr
    ensures Spelled(addr[..], n, stringSize, Decoded(data[..], dataSize))
    ensures forall j :: n <= j < addr.Length ==> addr[j] == old(addr[j])
  {
    hide Spelled, OctetDigits;
    n := 0;
    NothingSpelled(addr[..], stringSize);
    var i := 1;
    while i < dataSize
      invariant 1 <= i && (dataSize > 1 ==> i <= dataSize) && (dataSize <= 1 ==> i == 1)
      invariant Spelled(addr[..], n, stringSize, Digits(data[1..i]))
      invariant forall j :: n <= j < addr.Length ==> addr[j] == old(addr[j])
    {
      assert data[1..i + 1][..i - 1] == data[1..i];
      n := PutOctet(addr, n, stringSize, data[i], Digits(data[1..i]));
      i := i + 1;
    }
    assert dataSize > 1 ==> data[1..i] == data[..][1..dataSize];
  }

  /** Decodes an address into the caller's string: as many of its digits as fit, then a NUL,
      and nothing after that; returns the number of digits. */
  method DecodeAddress(addr: array?<char>, stringSize: int, data: array?<Octet>, dataSize: int) returns (n: int)
    requires addr != null ==> addr.Length >= 1 && stringSize <= addr.Length
    requires data != null ==> data.Length >= 1 && dataSize <= data.Length
    modifies addr
    ensures addr == null || data == null ==> n == 0
    ensures addr != null && data == null ==> addr[..] == old(addr[..])
    ensures addr != null && data != null && (data[0] != 0x91 || dataSize <= 1) ==> n == 0
    ensures addr != null && data != null ==>
      && Spelled(addr[..], n, stringSize, Decoded(data[..], dataSize))
      && addr[n] == '\0'
      && forall j :: n < j < addr.Length ==> addr[j] == old(addr[j])
  {
    hide Digits;
    n := 0;
    if data == null || addr == null {
      return 0;
    }
    if data[0] != ADDR_PREFIX {
      addr[0] := '\0';
      return 0;
    }
    n := DecodeOctets(addr, stringSize, data, dataSize);
    ghost var before := addr[..n];
    addr[n] := '\0';
    assert addr[..n] == before;
  }

  // ---------------------------------------------------------------- what the digits are

  /** The half octets, low half first. */
  function Halves(octets: seq<Octet>): seq<nat> {
    if octets == [] then [] else [octets[0] as nat % 16, octets[0] as nat / 16] + Halves(octets[1..])
  }

  /** Halves up to 9 are digits; all others are skipped. */
  function Spelling(halves: seq<nat>): string {
    if halves == [] then ""
    else (if halves[0] <= 9 then ["0123456789"[halves[0]]] else "") + Spelling(halves[1..])
  }

  lemma {:induction false} DigitsCons(o: Octet, octets: seq<Octet>)
    ensures Digits([o] + octets) == OctetDigits(o) + Digits(octets)
  {
    if octets == [] {
      assert [o] + octets == [o] && [o][..0] == [];
    } else {
      var n := |octets| - 1;
      DigitsCons(o, octets[..n]);
      assert ([o] + octets)[..n + 1] == [o] + octets[..n];
    }
  }

  lemma DigitIs(n: nat)
    requires n <= 9
    ensures DigitChar(n) == "0123456789"[n]
  {
  }

  lemma SpellingPair(low: nat, high: nat, rest: seq<nat>)
    ensures Spelling([low, high] + rest) == HalfDigit(low) + HalfDigit(high) + Spelling(rest)
  {
    if low <= 9 { DigitIs(low); }
    if high <= 9 { DigitIs(high); }
    assert ([low, high] + rest)[1..] == [high] + rest && ([high] + rest)[1..] == rest;
  }

  lemma NothingSpelling()
    ensures Spelling([]) == ""
  {
  }

  /** The decoded string is the digits among the half octets, in order. */
  lemma {:induction false} DigitsAreHalves(octets: seq<Octet>)
    ensures Digits(octets) == Spelling(Halves(octets))
  {
    hide Spelling, HalfDigit, OctetDigits, DigitChar;
    if octets == [] {
      NothingSpelling();
    } else {
      var o := octets[0];
      DigitsAreHalves(octets[1..]);
      DigitsCons(o, octets[1..]);
      assert octets == [o] + octets[1..];
      SpellingPair(o as nat % 16, o as nat / 16, Halves(octets[1..]));
      HalvesAreOctet(o, "");
      assert "" + HalfDigit(o as nat % 16) == HalfDigit(o as nat % 16) && "" + OctetDigits(o) == OctetDigits(o);
    }
  }

  // ---------------------------------------------------------------- round trip

  predicate IsNumber(number: string) {
    forall i :: 0 <= i < |number| ==> '0' <= number[i] <= '9'
  }

  /** Swapped semi-octets, with 0xF to fill up an odd number of digits. */
  function SemiOctets(number: string): seq<Octet>
    requires IsNumber(number)
  {
    if number == [] then []
    else if |number| == 1 then [(number[0] as int - 48 + 0xF0) as Octet]
    else [(number[0] as int - 48 + 16 * (number[1] as int - 48)) as Octet] + SemiOctets(number[2..])
  }

  lemma NoDigits()
    ensures Digits([]) == ""
  {
  }

  /** An octet with the digit `c` below and the half `high` above it. */
  lemma OneOctet(c: char, high: nat)
    requires '0' <= c <= '9' && high <= 15
    ensures OctetDigits((c as int - 48 + 16 * high) as Octet) ==
      if high <= 9 then [c, (high + 48) as char] else [c]
  {
    var o := c as int - 48 + 16 * high;
    assert o % 16 == c as int - 48 && o / 16 == high;
  }

  /** Decoding the encoded address of any number gives the number back. */
  lemma {:induction false} RoundTrip(number: string)
    requires IsNumber(number)
    ensures Digits(SemiOctets(number)) == number
    decreases |number|
  {
    hide Digits, OctetDigits;
    if number == [] {
      NoDigits();
    } else if |number| == 1 {
      var o := (number[0] as int - 48 + 0xF0) as Octet;
      NoDigits();
      DigitsCons(o, []);
      OneOctet(number[0], 15);
      assert [o] + [] == [o] && [number[0]] + "" == number;
    } else {
      var o := (number[0] as int - 48 + 16 * (number[1] as int - 48)) as Octet;
      DigitsCons(o, SemiOctets(number[2..]));
      RoundTrip(number[2..]);
      OneOctet(number[0], number[1] as nat - 48);
      assert number == [number[0], number[1]] + number[2..];
    }
  }

  /** A caller that decodes 0x91 and the encoded digits gets the digits, cut to what its
      string can hold. */
  method DecodeEncoded(addr: array<char>, number: string) returns (n: int)
    requires IsNumber(number) && addr.Length >= 1
    modifies addr
    ensures n == if |number| < addr.Length then |number| else addr.Length - 1
    ensures addr[..n] == number[..n] && addr[n] == '\0'
  {
    var octets := [0x91] + SemiOctets(number);
    var data := new Octet[|octets|](i requires 0 <= i < |octets| => octets[i]);
    assert data[..] == octets && data[1..data.Length] == SemiOctets(number);
    RoundTrip(number);
    n := DecodeAddress(addr, addr.Length, data, data.Length);
    assert Decoded(data[..], data.Length) == number;
  }
}
