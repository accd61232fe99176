// The ICO container of the Windows tray icons: a directory of sizes and
// offsets, then the embedded PNGs.
module TrayIcons {
  import opened Basics

  datatype Image = Image(size: int, png: seq<Byte>)

  // --- Little-endian integers ----------------------------------------------------

  function Byte0(n: nat): Byte {
    (n % 256) as Byte
  }

  function LittleEndian(n: nat, width: nat): (b: seq<Byte>)
    ensures |b| == width
  {
    if width == 0 then [] else [Byte0(n)] + LittleEndian(n / 256, width - 1)
  }

  function Decode(b: seq<Byte>): nat {
    if b == [] then 0 else b[0] as nat + 256 * Decode(b[1..])
  }

  function Capacity(width: nat): nat {
    if width == 0 then 1 else 256 * Capacity(width - 1)
  }

  lemma {:induction false} DecodeLittleEndian(n: nat, width: nat)
    requires n < Capacity(width)
    ensures Decode(LittleEndian(n, width)) == n
  {
    if width > 0 {
      DecodeLittleEndian(n / 256, width - 1);
      var b := LittleEndian(n, width);
      assert b[1..] == LittleEndian(n / 256, width - 1);
    }
  }

  // --- The writer ------------------------------------------------------------------

  function SizeByte(size: int): Byte
    requires size >= 0
  {
    if size >= 256 then 0 else size as Byte
  }

  function Entry(image: Image, offset: nat): (e: seq<Byte>)
    requires image.size >= 0
    ensures |e| == 16
  {
    [SizeByte(image.size), SizeByte(image.size), 0, 0]
    + LittleEndian(1, 2) + LittleEndian(32, 2) + LittleEndian(|image.png|, 4) + LittleEndian(offset, 4)
  }

  function PngBytes(images: seq<Image>): seq<Byte> {
    if images == [] then [] else PngBytes(images[..|images| - 1]) + images[|images| - 1].png
  }

  // Where image i's PNG starts.
  function Offset(images: seq<Image>, i: nat): nat
    requires i <= |images|
  {
    6 + 16 * |images| + |PngBytes(images[..i])|
  }

  predicate Fits(images: seq<Image>, i: nat)
    requires i < |images|
  {
    images[i].size >= 0 && |images[i].png| < 0x1_0000_0000 && Offset(images, i) < 0x1_0000_0000
  }

  function EntryOf(images: seq<Image>, i: nat): (e: seq<Byte>)
    requires i < |images| && Fits(images, i)
    ensures |e| == 16
  {
    Entry(images[i], Offset(images, i))
  }

  // The directory entries of the first i images.
  function Directory(images: seq<Image>, i: nat): (d: seq<Byte>)
    requires i <= |images| && forall j | 0 <= j < i :: Fits(images, j)
    ensures |d| == 16 * i
  {
    if i == 0 then [] else Directory(images, i - 1) + EntryOf(images, i - 1)
  }

  function Header(count: nat): seq<Byte> {
    LittleEndian(0, 2) + LittleEndian(1, 2) + LittleEndian(count, 2)
  }

  // Each conversion to a fixed width fits; one that does not traps.
  predicate Encodable(images: seq<Image>) {
    |images| < 0x1_0000 && forall i | 0 <= i < |images| :: Fits(images, i)
  }

  function File(images: seq<Image>): seq<Byte>
    requires Encodable(images)
  {
    Header(|images|) + Directory(images, |images|) + PngBytes(images)
  }

  lemma OneMorePng(images: seq<Image>, i: nat)
    requires i < |images|
    ensures PngBytes(images[..i + 1]) == PngBytes(images[..i]) + images[i].png
    ensures Offset(images, i + 1) == Offset(images, i) + |images[i].png|
  {
    assert images[..i + 1][..i] == images[..i];
  }

  // None when a conversion traps.
  method Ico(images: seq<Image>) returns (file: Option<seq<Byte>>)
    ensures file == if Encodable(images) then Some(File(images)) else None
  {
    if |images| >= 0x1_0000 { return None; }
    var data := AppendDirectory(images, Header(|images|));
    if data == None { return None; }
    var all := AppendPngs(images, data.value);
    return Some(all);
  }

  lemma OneMoreEntry(images: seq<Image>, i: nat, start: seq<Byte>)
    requires i < |images| && forall j | 0 <= j <= i :: Fits(images, j)
    ensures Fits(images, i)
    ensures start + Directory(images, i + 1) == start + Directory(images, i) + EntryOf(images, i)
  {
  }

  method AppendDirectory(images: seq<Image>, start: seq<Byte>) returns (data: Option<seq<Byte>>)
    ensures data.Some? <==> forall i | 0 <= i < |images| :: Fits(images, i)
    ensures data.Some? ==> data.value == start + Directory(images, |images|)
  {
    var bytes, offset := start, 6 + 16 * |images|;
    for i := 0 to |images|
      invariant forall j | 0 <= j < i :: Fits(images, j)
      invariant bytes == start + Directory(images, i)
      invariant offset == Offset(images, i)
    {
      var image := images[i];
      if image.size < 0 || |image.png| >= 0x1_0000_0000 || offset >= 0x1_0000_0000 {
        assert !Fits(images, i);
        return None;
      }
      OneMoreEntry(images, i, start);
      OneMorePng(images, i);
      bytes := bytes + Entry(image, offset);
      offset := offset + |image.png|;
    }
    return Some(bytes);
  }

  method AppendPngs(images: seq<Image>, start: seq<Byte>) returns (data: seq<Byte>)
    ensures data == start + PngBytes(images)
  {
    data := start;
    for i := 0 to |images|
      invariant data == start + PngBytes(images[..i])
    {
      OneMorePng(images, i);
      data := data + images[i].png;
    }
    assert images[..|images|] == images;
  }

  // --- A reader that follows the directory ---------------------------------------

  function Field(file: seq<Byte>, at: nat, width: nat): nat
    requires at + width <= |file|
  {
    Decode(file[at..at + width])
  }

  function ReadCount(file: seq<Byte>): nat
    requires |file| >= 6
  {
    Field(file, 4, 2)
  }

  // The size and the PNG of directory entry i; size byte 0 means 256.
  function ReadImage(file: seq<Byte>, i: nat): Option<Image>
    requires 6 + 16 * i + 16 <= |file|
  {
    var at := 6 + 16 * i;
    var size := if file[at] == 0 then 256 else file[at] as int;
    var length, offset := Field(file, at + 8, 4), Field(file, at + 12, 4);
    if offset + length <= |file| then Some(Image(size, file[offset..offset + length])) else None
  }

  lemma {:induction false} DirectoryEntry(images: seq<Image>, n: nat, i: nat)
    requires i < n <= |images| && forall j | 0 <= j < n :: Fits(images, j)
    ensures Directory(images, n)[16 * i..16 * i + 16] == EntryOf(images, i)
  {
    var d := Directory(images, n);
    if i == n - 1 {
      assert d[16 * i..16 * i + 16] == EntryOf(images, i);
    } else {
      DirectoryEntry(images, n - 1, i);
      assert d[16 * i..16 * i + 16] == Directory(images, n - 1)[16 * i..16 * i + 16];
    }
  }

  lemma {:induction false} PngSlice(images: seq<Image>, n: nat, i: nat)
    requires i < n <= |images|
    ensures |PngBytes(images[..i])| + |images[i].png| <= |PngBytes(images[..n])|
    ensures PngBytes(images[..n])[|PngBytes(images[..i])|..][..|images[i].png|] == images[i].png
  {
    assert images[..n][..n - 1] == images[..n - 1];
    var all := PngBytes(images[..n]);
    assert all == PngBytes(images[..n - 1]) + images[n - 1].png;
    if i < n - 1 {
      PngSlice(images, n - 1, i);
      var k := |PngBytes(images[..i])|;
      assert all[k..][..|images[i].png|] == PngBytes(images[..n - 1])[k..][..|images[i].png|];
    }
  }

  lemma EntryFields(image: Image, offset: nat)
    requires image.size >= 0 && |image.png| < 0x1_0000_0000 && offset < 0x1_0000_0000
    ensures var e := Entry(image, offset);
            && e[0] == SizeByte(image.size)
            && Decode(e[8..12]) == |image.png| && Decode(e[12..16]) == offset
  {
    var e := Entry(image, offset);
    assert Capacity(4) == 0x1_0000_0000;
    DecodeLittleEndian(|image.png|, 4);
    DecodeLittleEndian(offset, 4);
    assert e[8..12] == LittleEndian(|image.png|, 4);
    assert e[12..16] == LittleEndian(offset, 4);
  }

  lemma FileFields(images: seq<Image>, i: nat)
    requires Encodable(images) && i < |images|
    ensures |File(images)| == Offset(images, |images|)
    ensures 6 + 16 * i + 16 <= |File(images)|
    ensures Fits(images, i) && File(images)[6 + 16 * i..6 + 16 * i + 16] == EntryOf(images, i)
  {
    var file, n := File(images), |images|;
    assert images[..n] == images;
    DirectoryEntry(images, n, i);
    Inner(Header(n), Directory(images, n), PngBytes(images), 16 * i, 16);
  }

  lemma Inner(a: seq<Byte>, b: seq<Byte>, c: seq<Byte>, at: nat, length: nat)
    requires at + length <= |b|
    ensures (a + b + c)[|a| + at..|a| + at + length] == b[at..at + length]
  {}

  lemma CountField(images: seq<Image>)
    requires Encodable(images)
    ensures |File(images)| >= 6 && ReadCount(File(images)) == |images|
  {
    var n := |images|;
    assert Capacity(2) == 0x1_0000;
    DecodeLittleEndian(n, 2);
    assert File(images)[4..6] == LittleEndian(n, 2);
  }

  lemma FileSlice(images: seq<Image>, i: nat)
    requires Encodable(images) && i < |images|
    ensures Offset(images, i) + |images[i].png| <= |File(images)|
    ensures File(images)[Offset(images, i)..Offset(images, i) + |images[i].png|] == images[i].png
  {
    var file, n := File(images), |images|;
    assert images[..n] == images;
    PngSlice(images, n, i);
    var k, m := |PngBytes(images[..i])|, |images[i].png|;
    assert file[6 + 16 * n..] == PngBytes(images);
    assert file[Offset(images, i)..Offset(images, i) + m] == PngBytes(images)[k..][..m];
  }

  lemma SliceOfSlice(s: seq<Byte>, at: nat, length: nat, i: nat, j: nat)
    requires i <= j <= length && at + length <= |s|
    ensures s[at..at + length][i..j] == s[at + i..at + j]
  {
    var t := s[at..at + length];
    forall k | 0 <= k < j - i ensures t[i..j][k] == s[at + i..at + j][k] {
      assert t[i + k] == s[at + i + k];
    }
  }

  lemma ReadEntry(file: seq<Byte>, i: nat, image: Image, offset: nat)
    requires image.size >= 0 && |image.png| < 0x1_0000_0000 && offset < 0x1_0000_0000
    requires 6 + 16 * i + 16 <= |file| && file[6 + 16 * i..6 + 16 * i + 16] == Entry(image, offset)
    requires offset + |image.png| <= |file|
    ensures ReadImage(file, i) == Some(Image(if 0 < image.size < 256 then image.size else 256,
                                             file[offset..offset + |image.png|]))
  {
    var at := 6 + 16 * i;
    EntryFields(image, offset);
    SliceOfSlice(file, at, 16, 8, 12);
    SliceOfSlice(file, at, 16, 12, 16);
    assert file[at] == file[at..at + 16][0];
    assert Field(file, at + 8, 4) == |image.png|;
    assert Field(file, at + 12, 4) == offset;
  }

  // Following directory entry i yields image i's PNG, and its size when that is
  // between 1 and 256.
  lemma RoundTrip(images: seq<Image>, i: nat)
    requires Encodable(images) && i < |images|
    ensures ReadCount(File(images)) == |images|
    ensures 6 + 16 * i + 16 <= |File(images)|
    ensures ReadImage(File(images), i).Some? && ReadImage(File(images), i).value.png == images[i].png
    ensures ReadImage(File(images), i).value.size == images[i].size <==> 1 <= images[i].size <= 256
  {
    CountField(images);
    FileFields(images, i);
    FileSlice(images, i);
    ReadEntry(File(images), i, images[i], Offset(images, i));
  }

  // The PNG slices follow one another without gap or overlap, from the end of
  // the directory to the end of the file.
  lemma SlicesAreContiguous(images: seq<Image>, i: nat)
    requires Encodable(images) && i < |images|
    ensures Offset(images, 0) == 6 + 16 * |images|
    ensures Offset(images, i + 1) == Offset(images, i) + |images[i].png|
    ensures Offset(images, |images|) == |File(images)|
  {
    OneMorePng(images, i);
    FileFields(images, i);
  }

  lemma EntryRest(image: Image, offset: nat)
    requires image.size >= 0
    ensures var e := Entry(image, offset);
            && e[0] == e[1] && (if image.size < 256 then e[0] as int == image.size else e[0] == 0)
            && e[2] == 0 && e[3] == 0 && Decode(e[4..6]) == 1 && Decode(e[6..8]) == 32
  {
    var e := Entry(image, offset);
    assert Capacity(2) == 0x1_0000;
    DecodeLittleEndian(1, 2);
    DecodeLittleEndian(32, 2);
    assert e[4..6] == LittleEndian(1, 2);
    assert e[6..8] == LittleEndian(32, 2);
  }

  // The file says that it is an icon: reserved 0, type 1.
  lemma HeaderFields(images: seq<Image>)
    requires Encodable(images)
    ensures |File(images)| >= 6 && Field(File(images), 0, 2) == 0 && Field(File(images), 2, 2) == 1
  {
    CountField(images);
    assert Capacity(2) == 0x1_0000;
    DecodeLittleEndian(0, 2);
    DecodeLittleEndian(1, 2);
    assert File(images)[0..2] == LittleEndian(0, 2);
    assert File(images)[2..4] == LittleEndian(1, 2);
  }

  // Every image's entry gives its height as its width, no palette, and one plane
  // of 32 bits.
  lemma EntryRestRead(images: seq<Image>, i: nat)
    requires Encodable(images) && i < |images|
    ensures 6 + 16 * i + 16 <= |File(images)|
    ensures var file, at := File(images), 6 + 16 * i;
            && file[at] == file[at + 1]
            && (if images[i].size < 256 then file[at] as int == images[i].size else file[at] == 0)
            && file[at + 2] == 0 && file[at + 3] == 0
            && Field(file, at + 4, 2) == 1 && Field(file, at + 6, 2) == 32
  {
    FileFields(images, i);
    EntryRest(images[i], Offset(images, i));
    RestRead(File(images), 6 + 16 * i, EntryOf(images, i));
  }

  lemma RestRead(file: seq<Byte>, at: nat, e: seq<Byte>)
    requires at + 16 <= |file| && file[at..at + 16] == e
    ensures file[at] == e[0] && file[at + 1] == e[1] && file[at + 2] == e[2] && file[at + 3] == e[3]
    ensures Field(file, at + 4, 2) == Decode(e[4..6]) && Field(file, at + 6, 2) == Decode(e[6..8])
  {
    SliceOfSlice(file, at, 16, 4, 6);
    SliceOfSlice(file, at, 16, 6, 8);
    assert forall k | 0 <= k < 16 :: file[at + k] == e[k];
    assert file[at] == file[at + 0];
  }
}
