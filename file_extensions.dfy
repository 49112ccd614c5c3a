/**
 * Utils.FileExtensions: the lowercase hex MD5 of a file, and the
 * best-effort chmod +x. The MD5 algorithm itself is a parameter.
 */
module FileExtensions {
  import opened Wrappers
  import opened Strings
  import opened HostFiles

  /** An MD5 digest: sixteen bytes. */
  type Digest = d: seq<byte> | |d| == 16 witness [0, 0, 0, 0, 0, 0, 0, 0, 0, 0, 0, 0, 0, 0, 0, 0]

  /** MD5.ComputeHash, left opaque: any deterministic map from contents to a digest. */
  type Md5 = seq<byte> -> Digest

  /** The characters a lowercase hex string is made of. */
  const LowerHexDigits := "0123456789abcdef"

  /** The hex digit BitConverter prints for a nibble (upper case). */
  function UpperHexDigit(n: int): char
    requires 0 <= n < 16
  {
    if n < 10 then ('0' as int + n) as char else ('A' as int + n - 10) as char
  }

  /** The hex digit of a nibble in lower case. */
  function LowerHexDigit(n: int): (c: char)
    requires 0 <= n < 16
    ensures c == LowerHexDigits[n]
  {
    if n < 10 then ('0' as int + n) as char else ('a' as int + n - 10) as char
  }

  /** BitConverter.ToString(bytes): two upper-case digits per byte, joined by '-'. */
  function BitConverterToString(bytes: seq<byte>): (r: string)
    ensures |r| == if bytes == [] then 0 else 3 * |bytes| - 1
  {
    if |bytes| == 0 then ""
    else if |bytes| == 1 then [UpperHexDigit(bytes[0] as int / 16), UpperHexDigit(bytes[0] as int % 16)]
    else [UpperHexDigit(bytes[0] as int / 16), UpperHexDigit(bytes[0] as int % 16)] + "-"
         + BitConverterToString(bytes[1..])
  }

  /** The reference encoding: two lowercase digits per byte, high nibble first. */
  function NibbleHex(bytes: seq<byte>): string
  {
    if |bytes| == 0 then ""
    else [LowerHexDigit(bytes[0] as int / 16), LowerHexDigit(bytes[0] as int % 16)] + NibbleHex(bytes[1..])
  }

  lemma {:induction false} NibbleHexAt(bytes: seq<byte>)
    ensures |NibbleHex(bytes)| == 2 * |bytes|
    ensures forall i :: 0 <= i < |bytes| ==>
      NibbleHex(bytes)[2 * i] == LowerHexDigit(bytes[i] as int / 16) &&
      NibbleHex(bytes)[2 * i + 1] == LowerHexDigit(bytes[i] as int % 16)
  {
    if |bytes| > 0 {
      NibbleHexAt(bytes[1..]);
      var h := NibbleHex(bytes);
      forall i | 0 <= i < |bytes|
        ensures h[2 * i] == LowerHexDigit(bytes[i] as int / 16)
        ensures h[2 * i + 1] == LowerHexDigit(bytes[i] as int % 16)
      {
        if i > 0 {
          assert bytes[1..][i - 1] == bytes[i];
          assert h[2 * i] == NibbleHex(bytes[1..])[2 * (i - 1)];
          assert h[2 * i + 1] == NibbleHex(bytes[1..])[2 * (i - 1) + 1];
        }
      }
    }
  }

  lemma UpperDigitLowered(n: int)
    requires 0 <= n < 16
    ensures UpperHexDigit(n) != '-' && LowerChar(UpperHexDigit(n)) == LowerHexDigit(n)
  {
  }

  /** One byte's two digits survive the dash removal and lower-case to the reference pair. */
  lemma ByteChain(b: byte)
    ensures var up: string := [UpperHexDigit(b as int / 16), UpperHexDigit(b as int % 16)];
      ToLower(RemoveAll(up, '-')) == [LowerHexDigit(b as int / 16), LowerHexDigit(b as int % 16)]
  {
    var up: string := [UpperHexDigit(b as int / 16), UpperHexDigit(b as int % 16)];
    UpperDigitLowered(b as int / 16);
    UpperDigitLowered(b as int % 16);
    assert RemoveAll(up, '-') == up by {
      assert up[1..] == [up[1]];
      assert RemoveAll([up[1]], '-') == [up[1]];
    }
  }

  /** The dash-joined rest loses its leading dash and splits along the join. */
  lemma DashedChain(up: string, rest: string)
    ensures ToLower(RemoveAll(up + "-" + rest, '-')) == ToLower(RemoveAll(up, '-')) + ToLower(RemoveAll(rest, '-'))
  {
    assert up + "-" + rest == up + ("-" + rest);
    RemoveAllAppend(up, "-" + rest, '-');
    RemoveAllAppend("-", rest, '-');
    assert RemoveAll("-", '-') == "";
    assert "" + RemoveAll(rest, '-') == RemoveAll(rest, '-');
    ToLowerAppend(RemoveAll(up, '-'), RemoveAll(rest, '-'));
  }

  /** The .NET chain (ToString, strip dashes, lower-case) is the reference encoding. */
  lemma {:induction false} HexChainIsNibbleHex(bytes: seq<byte>)
    ensures ToLower(RemoveAll(BitConverterToString(bytes), '-')) == NibbleHex(bytes)
  {
    if |bytes| > 0 {
      var b := bytes[0];
      var up: string := [UpperHexDigit(b as int / 16), UpperHexDigit(b as int % 16)];
      var low: string := [LowerHexDigit(b as int / 16), LowerHexDigit(b as int % 16)];
      ByteChain(b);
      if |bytes| == 1 {
        assert NibbleHex(bytes) == low + NibbleHex(bytes[1..]);
        assert NibbleHex(bytes[1..]) == "";
        assert low + "" == low;
      } else {
        var rest := BitConverterToString(bytes[1..]);
        HexChainIsNibbleHex(bytes[1..]);
        assert BitConverterToString(bytes) == up + "-" + rest;
        DashedChain(up, rest);
      }
    }
  }

  /** The digest string CalculateFileMd5Hash returns for a digest. */
  function Md5Hex(digest: seq<byte>): (hex: string)
    ensures |hex| == 2 * |digest|
    ensures forall k :: 0 <= k < |hex| ==> hex[k] in LowerHexDigits
    ensures forall i :: 0 <= i < |digest| ==>
      hex[2 * i] == LowerHexDigit(digest[i] as int / 16) &&
      hex[2 * i + 1] == LowerHexDigit(digest[i] as int % 16)
  {
    HexChainIsNibbleHex(digest);
    NibbleHexAt(digest);
    NibbleHexDigits(digest);
    ToLower(RemoveAll(BitConverterToString(digest), '-'))
  }

  /** The reference encoding only uses lowercase hex digits. */
  lemma {:induction false} NibbleHexDigits(bytes: seq<byte>)
    ensures forall k :: 0 <= k < |NibbleHex(bytes)| ==> NibbleHex(bytes)[k] in LowerHexDigits
  {
    if |bytes| > 0 {
      NibbleHexDigits(bytes[1..]);
      var pair: string := [LowerHexDigit(bytes[0] as int / 16), LowerHexDigit(bytes[0] as int % 16)];
      var rest := NibbleHex(bytes[1..]);
      assert NibbleHex(bytes) == pair + rest;
      forall k | 0 <= k < |pair + rest| ensures (pair + rest)[k] in LowerHexDigits {
        if k >= 2 {
          assert (pair + rest)[k] == rest[k - 2];
        }
      }
    }
  }

  lemma LowerHexDigitInjective(n: int, m: int)
    requires 0 <= n < 16 && 0 <= m < 16
    requires LowerHexDigit(n) == LowerHexDigit(m)
    ensures n == m
  {
  }

  /** Two digests print alike only if they are equal, so comparing hex strings compares digests. */
  lemma Md5HexInjective(a: seq<byte>, b: seq<byte>)
    ensures Md5Hex(a) == Md5Hex(b) <==> a == b
  {
    if Md5Hex(a) == Md5Hex(b) {
      assert |a| == |b|;
      forall i | 0 <= i < |a| ensures a[i] == b[i] {
        var x, y := a[i] as int, b[i] as int;
        assert Md5Hex(a)[2 * i] == Md5Hex(b)[2 * i];
        assert Md5Hex(a)[2 * i + 1] == Md5Hex(b)[2 * i + 1];
        LowerHexDigitInjective(x / 16, y / 16);
        LowerHexDigitInjective(x % 16, y % 16);
        assert x == 16 * (x / 16) + x % 16;
        assert y == 16 * (y / 16) + y % 16;
      }
    }
  }

  /** The value of a lowercase hex digit. */
  function HexValue(c: char): (n: int)
    requires c in LowerHexDigits
    ensures 0 <= n < 16 && LowerHexDigit(n) == c
  {
    if '0' <= c <= '9' then c as int - '0' as int else c as int - 'a' as int + 10
  }

  /** Reading a lowercase hex string back, two digits per byte. */
  function HexDecode(hex: string): (bytes: seq<byte>)
    requires |hex| % 2 == 0
    requires forall k :: 0 <= k < |hex| ==> hex[k] in LowerHexDigits
    ensures |bytes| == |hex| / 2
    ensures NibbleHex(bytes) == hex
  {
    if hex == [] then []
    else
      var hi, lo := HexValue(hex[0]), HexValue(hex[1]);
      var b := (16 * hi + lo) as byte;
      assert b as int / 16 == hi && b as int % 16 == lo;
      [b] + HexDecode(hex[2..])
  }

  /**
   * Every even-length lowercase hex string is what CalculateFileMd5Hash
   * prints for exactly one byte string: Md5Hex and HexDecode are inverses.
   */
  lemma Md5HexDecode(hex: string)
    requires |hex| % 2 == 0
    requires forall k :: 0 <= k < |hex| ==> hex[k] in LowerHexDigits
    ensures Md5Hex(HexDecode(hex)) == hex
    ensures forall d :: Md5Hex(d) == hex <==> d == HexDecode(hex)
  {
    var d := HexDecode(hex);
    HexChainIsNibbleHex(d);
    forall e ensures Md5Hex(e) == hex <==> e == d {
      Md5HexInjective(e, d);
    }
  }

  /**
   * CalculateFileMd5Hash(path): opening a missing or unreadable file throws;
   * otherwise the 32-character lowercase hex MD5 of its contents.
   */
  function CalculateFileMd5Hash(md5: Md5, fs: Files, path: string): (r: Result<string, IoError>)
    ensures r.Failure? <==> path !in fs.contents || path in fs.unreadable
    ensures path !in fs.contents ==> r == Failure(FileNotFound(path))
    ensures r.Success? ==> |r.value| == 32 && forall k :: 0 <= k < 32 ==> r.value[k] in LowerHexDigits
    ensures r.Success? ==> forall d: Digest :: r.value == Md5Hex(d) <==> d == md5(fs.contents[path])
  {
    if path !in fs.contents then Failure(FileNotFound(path))
    else if path in fs.unreadable then Failure(AccessDenied(path))
    else
      var hex := Md5Hex(md5(fs.contents[path]));
      assert forall d: Digest :: hex == Md5Hex(d) <==> d == md5(fs.contents[path]) by {
        forall d: Digest ensures hex == Md5Hex(d) <==> d == md5(fs.contents[path]) {
          Md5HexInjective(d, md5(fs.contents[path]));
        }
      }
      Success(hex)
  }

  /**
   * SetExecutable(path): nothing at all where the directory separator is '\';
   * elsewhere chmod +x runs as an outside process, and its failures are
   * swallowed. chmodRuns says whether that process ran and succeeded.
   * Contents and permissions never change; at most path gains the execute
   * bit, and only when it names an existing file.
   */
  function SetExecutable(fs: Files, path: string, separator: char, chmodRuns: bool): (r: Files)
    ensures r.contents == fs.contents && r.unreadable == fs.unreadable && r.unwritable == fs.unwritable
    ensures separator == '\\' ==> r == fs
    ensures fs.executable <= r.executable <= fs.executable + {path}
    ensures path in r.executable <==> path in fs.executable || (separator != '\\' && chmodRuns && path in fs.contents)
    ensures WellFormed(fs) ==> WellFormed(r)
  {
    if separator == '\\' then fs
    else if chmodRuns && path in fs.contents then fs.(executable := fs.executable + {path})
    else fs
  }
}
