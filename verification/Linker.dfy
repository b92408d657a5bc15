/** The layout of a linked contract (vm/ethvm/ewasm_linker.go): code, final, four magic bytes and the length of final. */
module Linker {
  import opened Words
  import opened BigEndian

  const MAGIC: seq<byte> := [0, 80, 68, 88]
  const WASM_IDENT: seq<byte> := [0, 0x61, 0x73, 0x6D]
  const MAX_FINAL := 16777215

  /** ed25519.Verify under the fixed public key, of a message and a signature. */
  type Verifier = (seq<byte>, seq<byte>) -> bool

  datatype SplitResult = Split(code: seq<byte>, final: seq<byte>) | Malformed | BadCode | SliceOutOfRange

  datatype JoinResult = Joined(finalcode: seq<byte>) | RejectJoin | BadFinal | TooLong

  /** IsWASM: the source slices four bytes unchecked, and asks only about code that has them. */
  predicate IsWASM(code: seq<byte>)
    requires |code| >= 4
  {
    code[..4] == WASM_IDENT
  }

  predicate IsFinalcode(finalcode: seq<byte>) {
    |finalcode| >= 72 && IsWASM(finalcode) && finalcode[|finalcode| - 8..][..4] == MAGIC
  }

  /** ValidateCode: the last 64 bytes sign the rest. */
  function ValidateCode(verify: Verifier, code: seq<byte>): Option<seq<byte>> {
    if |code| > 64 && IsWASM(code) && verify(code[..|code| - 64], code[|code| - 64..])
    then Some(code[..|code| - 64])
    else None
  }

  /** The number in the last four bytes. */
  function LengthField(finalcode: seq<byte>): nat
    requires |finalcode| >= 4
  {
    FromBytes(finalcode[|finalcode| - 4..])
  }

  function SplitTxdata(verify: Verifier, finalcode: seq<byte>): SplitResult {
    if |finalcode| < 73 then Malformed
    else
      var l, size := LengthField(finalcode), |finalcode|;
      if size - l - 8 < 0 then SliceOutOfRange
      else
        var code, final := finalcode[..size - l - 8], finalcode[size - l - 8..size - 8];
        if ValidateCode(verify, final).None? then BadCode else Split(code, final)
  }

  /** What JoinTxdata lays out, one append after the other. */
  function Layout(code: seq<byte>, final: seq<byte>): seq<byte> {
    code + final + MAGIC + ToBytes(|final|, 4)
  }

  /** What JoinTxdata answers. */
  function Join(verify: Verifier, code: seq<byte>, final: seq<byte>): JoinResult {
    if IsFinalcode(code) || IsFinalcode(final) then RejectJoin
    else if ValidateCode(verify, final).None? then BadFinal
    else if |final| > MAX_FINAL then TooLong
    else Joined(Layout(code, final))
  }

  /** JoinTxdata pads the minimal bytes of the length to four. */
  method JoinTxdata(verify: Verifier, code: seq<byte>, final: seq<byte>) returns (r: JoinResult)
    ensures r == Join(verify, code, final)
  {
    if IsFinalcode(code) || IsFinalcode(final) {
      return RejectJoin;
    }
    if ValidateCode(verify, final).None? {
      return BadFinal;
    }
    var finallen := |final|;
    if finallen > MAX_FINAL {
      return TooLong;
    }
    var finalcode: seq<byte> := [];
    finalcode := finalcode + code;
    finalcode := finalcode + final;
    finalcode := finalcode + MAGIC;
    var b24 := MinimalBytes(finallen);
    assert Pow256(3) == 0x100_0000 && Pow256(4) == 0x1_0000_0000;
    ByteLenBound(finallen, 3);
    var bl := 4 - |b24|;
    var zeros: seq<byte> := seq(bl, _ => 0);
    PaddedIsToBytes(finallen, 4, zeros);
    if bl > 0 {
      b24 := zeros + b24;
    }
    finalcode := finalcode + b24;
    return Joined(finalcode);
  }

  // ---------------------------------------------------------------- round trips

  /** The magic bytes are where JoinTxdata puts them. */
  predicate HasMagic(finalcode: seq<byte>)
    requires |finalcode| >= 8
  {
    finalcode[|finalcode| - 8..|finalcode| - 4] == MAGIC
  }

  lemma LayoutParts(code: seq<byte>, final: seq<byte>)
    requires |final| < 0x1_0000_0000
    ensures var joined, n := Layout(code, final), |code| + |final|;
            && |joined| == n + 8 && joined[..n] == code + final && joined[..|code|] == code && joined[|code|..n] == final
            && HasMagic(joined) && joined[n + 4..] == ToBytes(|final|, 4) && LengthField(joined) == |final|
  {
    assert Pow256(4) == 0x1_0000_0000;
    FromToBytes(|final|, 4);
  }

  /** What JoinTxdata joins, SplitTxdata takes apart. */
  lemma JoinThenSplit(verify: Verifier, code: seq<byte>, final: seq<byte>)
    requires Join(verify, code, final).Joined?
    ensures SplitTxdata(verify, Join(verify, code, final).finalcode) == Split(code, final)
  {
    LayoutParts(code, final);
  }

  lemma LayoutOfParts(s: seq<byte>, at: nat)
    requires |s| >= 8 && at + LengthField(s) == |s| - 8
    ensures Layout(s[..at], s[at..|s| - 8]) == s <==> HasMagic(s)
  {
    var n := |s|;
    ToFromBytes(s[n - 4..]);
    assert s == s[..at] + s[at..n - 8] + s[n - 8..n - 4] + s[n - 4..];
    var joined := Layout(s[..at], s[at..n - 8]);
    assert joined == s[..at] + s[at..n - 8] + MAGIC + s[n - 4..];
    assert joined[n - 8..n - 4] == MAGIC;
  }

  /** SplitTxdata does not look at the magic bytes; where they are right, the layout of the parts is what was split. */
  lemma SplitThenLayout(verify: Verifier, finalcode: seq<byte>)
    requires SplitTxdata(verify, finalcode).Split?
    ensures var parts := SplitTxdata(verify, finalcode);
            && |parts.final| == LengthField(finalcode)
            && (Layout(parts.code, parts.final) == finalcode <==> HasMagic(finalcode))
  {
    LayoutOfParts(finalcode, |finalcode| - LengthField(finalcode) - 8);
  }

  /** JoinTxdata rebuilds exactly those codes whose magic is right, whose halves are not themselves final, and whose length field
      fits in three bytes. */
  lemma SplitThenJoin(verify: Verifier, finalcode: seq<byte>)
    requires SplitTxdata(verify, finalcode).Split?
    ensures var parts := SplitTxdata(verify, finalcode);
            Join(verify, parts.code, parts.final) == Joined(finalcode) <==>
            HasMagic(finalcode) && !IsFinalcode(parts.code) && !IsFinalcode(parts.final) && LengthField(finalcode) <= MAX_FINAL
  {
    SplitThenLayout(verify, finalcode);
  }

  /** A joined code is a final code, and so is refused by another join, exactly when it begins as a module does. */
  lemma JoinedIsFinalIff(verify: Verifier, code: seq<byte>, final: seq<byte>)
    requires Join(verify, code, final).Joined?
    ensures IsFinalcode(Join(verify, code, final).finalcode) <==> IsWASM(code + final)
  {
    LayoutParts(code, final);
    var joined := Layout(code, final);
    assert joined[..4] == (code + final)[..4];
    assert joined[|joined| - 8..][..4] == joined[|joined| - 8..|joined| - 4];
    assert |joined| >= 73;
  }
}
