/** message_padding.cpp: padding to block sizes with random filler, and its removal. */
module Padding {
  import opened Bytes

  /** The output of the random generator; one padding run uses at most 254 bytes of it. */
  type Filler = f: bytes | |f| == 254 witness Zeros(254)

  function OptimalBlockSize(dataSize: nat): (r: nat)
    ensures r >= dataSize
  {
    var total := dataSize + 16;
    if total <= 256 then 256
    else if total <= 512 then 512
    else if total <= 1024 then 1024
    else if total <= 2048 then 2048
    else dataSize
  }

  /** What `Pad` produces: filler and a count byte, unless the gap is empty or above 255. */
  function Padded(data: bytes, target: nat, filler: Filler): (r: bytes)
    ensures data <= r
  {
    if |data| >= target || target - |data| > 255 then data
    else data + filler[..target - |data| - 1] + [target - |data|]
  }

  function Unpadded(data: bytes): (r: bytes)
    ensures r <= data
  {
    if data == [] then data
    else
      var k := data[|data| - 1];
      if k == 0 || k > |data| then data else data[..|data| - k]
  }

  /** The sizes that are really padded. */
  predicate InWindow(n: nat) {
    1 <= n <= 240 || 257 <= n <= 496 || 769 <= n <= 1008 || 1793 <= n <= 2032
  }

  /** The block size reached from inside a window. */
  function WindowBlock(n: nat): (r: nat)
    requires InWindow(n)
  {
    if n <= 240 then 256 else if n <= 496 then 512 else if n <= 1008 then 1024 else 2048
  }

  /** Data left alone by the unpadding of unpadded bytes. */
  predicate EndsInertly(data: bytes) {
    data == [] || data[|data| - 1] == 0 || data[|data| - 1] > |data|
  }

  predicate Survives(data: bytes) {
    InWindow(|data|) || EndsInertly(data)
  }

  function PaddedToBlock(data: bytes, filler: Filler): (r: bytes) {
    Padded(data, OptimalBlockSize(|data|), filler)
  }

  /** Padding happens exactly in the windows, and reaches exactly the window's block size there. */
  lemma PadsExactlyInWindows(data: bytes, filler: Filler)
    ensures PaddedToBlock(data, filler) != data <==> InWindow(|data|)
    ensures InWindow(|data|) ==> |PaddedToBlock(data, filler)| == WindowBlock(|data|)
  {
    var target := OptimalBlockSize(|data|);
    if InWindow(|data|) {
      assert 16 <= target - |data| <= 255;
      assert |PaddedToBlock(data, filler)| == target;
    }
  }

  /** For every data and filler, removal undoes padding if and only if the data survives. */
  lemma PaddingRoundTrip(data: bytes, filler: Filler)
    ensures Unpadded(PaddedToBlock(data, filler)) == data <==> Survives(data)
    ensures !Survives(data) ==>
              var k := data[|data| - 1];
              0 < k <= |data| && Unpadded(PaddedToBlock(data, filler)) == data[..|data| - k]
  {
    var p := PaddedToBlock(data, filler);
    PadsExactlyInWindows(data, filler);
    if InWindow(|data|) {
      var k := OptimalBlockSize(|data|) - |data|;
      assert p == data + filler[..k - 1] + [k];
      assert p[..|p| - k] == data;
    } else {
      assert p == data;
    }
  }

  method Pad(data: bytes, targetSize: nat, filler: Filler) returns (padded: bytes)
    ensures padded == Padded(data, targetSize, filler)
  {
    if |data| >= targetSize {
      return data;
    }
    var paddingNeeded := targetSize - |data|;
    if paddingNeeded > 255 {
      return data;
    }
    var randomBytes: bytes := [];
    for i := 0 to paddingNeeded - 1
      invariant randomBytes == filler[..i]
    {
      randomBytes := randomBytes + [filler[i]];
    }
    padded := data + randomBytes + [paddingNeeded];
  }
}
