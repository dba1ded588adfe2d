/** The pairing file of the adapter: `save_pairing` writes the console's
    address and the adapter's own, one `KEY=value` line each;
    `load_pairing` reads it back line by line with `fgets` into a 256-byte
    buffer and takes the first `PS3_MAC=` line whose value parses. */
module Pairing {
  import opened Bytes
  import opened MacAddress

  const PS3_KEY: string := "PS3_MAC="
  const LOCAL_KEY: string := "LOCAL_MAC="

  /** The size of the `fgets` buffer; a call returns at most one less. */
  const LINE_BUFFER: nat := 256

  /** What `bt_hid_save_pairing` writes. */
  function SaveContent(ps3: Mac, local: Mac): (c: string)
    ensures |c| == 54
    ensures c[..8] == PS3_KEY && c[8..25] == MacToStr(ps3) && c[25] == '\n'
    ensures c[26..36] == LOCAL_KEY && c[36..53] == MacToStr(local) && c[53] == '\n'
  {
    PS3_KEY + MacToStr(ps3) + "\n" + LOCAL_KEY + MacToStr(local) + "\n"
  }

  /** The length of the next `fgets` chunk of c: up to and including the
      first line break, but never more than 255 characters. */
  function ChunkLength(c: string, limit: nat): (k: nat)
    requires c != [] && limit > 0
    ensures 0 < k <= |c| && k <= limit
    ensures forall i :: 0 <= i < k - 1 ==> c[i] != '\n'
    ensures k < |c| && k < limit ==> c[k - 1] == '\n'
  {
    if c[0] == '\n' || |c| == 1 || limit == 1 then 1
    else 1 + ChunkLength(c[1..], limit - 1)
  }

  /** The successive strings `fgets(line, 256, f)` returns on a file. */
  function FgetsLines(c: string): (lines: seq<string>)
    ensures forall i :: 0 <= i < |lines| ==> 0 < |lines[i]| < LINE_BUFFER
    decreases |c|
  {
    if c == [] then []
    else
      var k := ChunkLength(c, LINE_BUFFER - 1);
      [c[..k]] + FgetsLines(c[k..])
  }

  /** The text of a line up to its first line break, as
      `strchr(mac_str, '\n')` cuts it. */
  function BeforeNewline(s: string): (r: string)
    ensures '\n' !in r
    ensures |r| <= |s| && r == s[..|r|]
    ensures |r| < |s| ==> s[|r|] == '\n'
  {
    if s == [] || s[0] == '\n' then []
    else
      var t := BeforeNewline(s[1..]);
      assert [s[0]] + t == s[..|t| + 1];
      [s[0]] + t
  }

  /** The address a line holds, if it is a `PS3_MAC=` line that parses. */
  function LineMac(line: string): (r: Option<Mac>)
    ensures r.Some? ==> |line| >= 8 && line[..8] == PS3_KEY
  {
    if |line| >= 8 && line[..8] == PS3_KEY then StrToMac(BeforeNewline(line[8..])) else None
  }

  /** The reference behaviour of `load_pairing`: the first line that holds
      an address. */
  function FirstMac(lines: seq<string>): Option<Mac>
  {
    if lines == [] then None
    else if LineMac(lines[0]).Some? then LineMac(lines[0])
    else FirstMac(lines[1..])
  }

  /** The first line holding an address wins. */
  lemma {:induction false} FirstMacAt(lines: seq<string>, i: nat)
    requires i < |lines| && LineMac(lines[i]).Some?
    requires forall j :: 0 <= j < i ==> LineMac(lines[j]).None?
    ensures FirstMac(lines) == LineMac(lines[i])
  {
    if i > 0 {
      var rest := lines[1..];
      assert LineMac(lines[0]).None?;
      forall j | 0 <= j < i - 1
        ensures LineMac(rest[j]).None?
      {
        assert rest[j] == lines[j + 1];
      }
      assert rest[i - 1] == lines[i];
      FirstMacAt(rest, i - 1);
    }
  }

  /** No address is found exactly when no line holds one. */
  lemma {:induction false} FirstMacNone(lines: seq<string>)
    ensures FirstMac(lines).None? <==> forall j :: 0 <= j < |lines| ==> LineMac(lines[j]).None?
  {
    if lines != [] {
      FirstMacNone(lines[1..]);
      if LineMac(lines[0]).None? {
        forall j | 0 <= j < |lines| - 1
          ensures lines[1..][j] == lines[j + 1]
        {
        }
      }
    }
  }

  /** `bt_hid_load_pairing`'s loop over the lines of the file; a missing
      file is no lines. */
  method LoadPairing(lines: seq<string>) returns (r: Option<Mac>)
    ensures r == FirstMac(lines)
  {
    var i := 0;
    while i < |lines|
      invariant i <= |lines|
      invariant FirstMac(lines) == FirstMac(lines[i..])
      decreases |lines| - i
    {
      assert lines[i..][1..] == lines[i + 1..];
      var line := lines[i];
      if |line| >= 8 && line[..8] == PS3_KEY {
        var parsed := StrToMac(BeforeNewline(line[8..]));
        if parsed.Some? {
          return parsed;
        }
      }
      i := i + 1;
    }
    return None;
  }

  /** Loading what was saved gives back the console's address. */
  lemma {:induction false} PairingRoundTrip(ps3: Mac, local: Mac)
    ensures FirstMac(FgetsLines(SaveContent(ps3, local))) == Some(ps3)
  {
    var c := SaveContent(ps3, local);
    var s := MacToStr(ps3);
    MacToStrHasNoNewline(ps3);
    assert forall i :: 0 <= i < 25 ==> c[i] != '\n' by {
      forall i | 0 <= i < 25
        ensures c[i] != '\n'
      {
        if i >= 8 {
          assert c[i] == s[i - 8];
        } else {
          assert c[i] == PS3_KEY[i];
        }
      }
    }
    ChunkIsFirstLine(c, 26);
    var lines := FgetsLines(c);
    assert lines[0] == c[..26];
    var line := c[..26];
    assert line[..8] == PS3_KEY;
    assert line[8..] == s + "\n";
    BeforeNewlineOf(s, "\n");
    MacRoundTrip(ps3, []);
    assert s + [] == s;
  }

  lemma {:induction false} ChunkIsFirstLine(c: string, n: nat)
    requires 0 < n <= |c| && n < LINE_BUFFER && c[n - 1] == '\n'
    requires forall i :: 0 <= i < n - 1 ==> c[i] != '\n'
    ensures ChunkLength(c, LINE_BUFFER - 1) == n
  {
    ChunkLengthOf(c, n, LINE_BUFFER - 1);
  }

  lemma {:induction false} ChunkLengthOf(c: string, n: nat, limit: nat)
    requires 0 < n <= |c| && n <= limit && c[n - 1] == '\n'
    requires forall i :: 0 <= i < n - 1 ==> c[i] != '\n'
    ensures ChunkLength(c, limit) == n
    decreases n
  {
    if n > 1 {
      assert c[0] != '\n';
      ChunkLengthOf(c[1..], n - 1, limit - 1);
    }
  }

  lemma {:induction false} BeforeNewlineOf(s: string, rest: string)
    requires '\n' !in s && rest != [] && rest[0] == '\n'
    ensures BeforeNewline(s + rest) == s
    decreases |s|
  {
    if s == [] {
      assert s + rest == rest;
    } else {
      assert (s + rest)[1..] == s[1..] + rest;
      BeforeNewlineOf(s[1..], rest);
      assert s == [s[0]] + s[1..];
    }
  }
}
