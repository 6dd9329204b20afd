/** pyrogram/file_id.py: FileId.encode and FileId._decode for ids that name no web
    location, over every file type and every thumbnail source. */
module FileId {
  import opened TlPrimitives
  import opened IdEncoding

  type CodePoint = n: nat | n < 0x11_0000

  /** An id as its fields stand; a missing optional is None. A thumbnail size is
      text, and only a single character can be written. */
  datatype FileId = FileId(
    major: int, minor: int, fileType: nat, dcId: int, fileReference: Bytes,
    mediaId: Option<int>, accessHash: Option<int>, volumeId: Option<int>, localId: Option<int>,
    thumbnailSource: Option<nat>, secret: Option<int>,
    thumbnailFileType: Option<int>, thumbnailSize: seq<CodePoint>,
    chatId: Option<int>, chatAccessHash: Option<int>,
    stickerSetId: Option<int>, stickerSetAccessHash: Option<int>, stickerSetVersion: Option<int>)

  const LEGACY: nat := 0
  const THUMBNAIL: nat := 1
  const CHAT_PHOTO_SMALL: nat := 2
  const CHAT_PHOTO_BIG: nat := 3
  const STICKER_SET_THUMBNAIL: nat := 4
  const FULL_LEGACY: nat := 5
  const CHAT_PHOTO_SMALL_LEGACY: nat := 6
  const CHAT_PHOTO_BIG_LEGACY: nat := 7
  const STICKER_SET_THUMBNAIL_LEGACY: nat := 8
  const STICKER_SET_THUMBNAIL_VERSION: nat := 9

  const WEB_LOCATION_FLAG: nat := 0x100_0000
  const FILE_REFERENCE_FLAG: nat := 0x200_0000

  /** PHOTO_TYPES: thumbnail, chat photo, photo, wallpaper, encrypted thumbnail. */
  predicate Photo(t: nat) { t == 0 || t == 1 || t == 2 || t == 11 || t == 12 }

  /** A FileType and a ThumbnailSource are members of their enumerations. */
  predicate Typed(f: FileId) {
    f.fileType < 18 && (f.thumbnailSource.Some? ==> f.thumbnailSource.value < 10)
  }

  // ------------------------------------------------------- struct.pack, unpack

  datatype Field = Field(value: Option<int>, size: nat)

  /** struct.pack raises when a value is missing or does not fit its width. */
  predicate Packable(fs: seq<Field>) {
    forall k :: 0 <= k < |fs| ==> fs[k].size > 0 && fs[k].value.Some? && Fits(fs[k].value.value, fs[k].size)
  }

  function Pack(fs: seq<Field>): Bytes
    requires Packable(fs)
  {
    if fs == [] then [] else WriteInt(fs[0].value.value, fs[0].size) + Pack(fs[1..])
  }

  predicate Widths(sizes: seq<nat>) { forall k :: 0 <= k < |sizes| ==> sizes[k] > 0 }

  /** struct.unpack of a read of the widths together, which raises on a short read. */
  function Unpack(b: Bytes, sizes: seq<nat>): (r: Option<(seq<int>, Bytes)>)
    requires Widths(sizes)
    ensures r.Some? ==> |r.value.0| == |sizes|
  {
    if sizes == [] then Some(([], b))
    else
      match ReadInt(b, sizes[0])
      case None => None
      case Some((first, rest)) =>
        match Unpack(rest, sizes[1..])
        case None => None
        case Some((others, after)) => Some(([first] + others, after))
  }

  function Sizes(fs: seq<Field>): seq<nat> { seq(|fs|, k requires 0 <= k < |fs| => fs[k].size) }

  function Values(fs: seq<Field>): seq<int>
    requires Packable(fs)
  {
    seq(|fs|, k requires 0 <= k < |fs| => fs[k].value.value)
  }

  lemma {:induction false} PackUnpack(fs: seq<Field>, rest: Bytes)
    requires Packable(fs)
    ensures Widths(Sizes(fs)) && Unpack(Pack(fs) + rest, Sizes(fs)) == Some((Values(fs), rest))
  {
    hide WriteInt, ReadInt;
    if fs == [] {
      assert Pack(fs) + rest == rest;
    } else {
      var first, others := WriteInt(fs[0].value.value, fs[0].size), Pack(fs[1..]);
      PackUnpack(fs[1..], rest);
      IntRoundTrip(fs[0].value.value, fs[0].size, others + rest);
      assert Pack(fs) + rest == first + (others + rest);
      assert Sizes(fs)[1..] == Sizes(fs[1..]);
      assert Values(fs) == [fs[0].value.value] + Values(fs[1..]);
    }
  }

  lemma {:induction false} PackAppend(fs: seq<Field>, gs: seq<Field>)
    requires Packable(fs + gs)
    ensures Packable(fs) && Packable(gs) && Pack(fs + gs) == Pack(fs) + Pack(gs)
  {
    hide WriteInt;
    forall k | 0 <= k < |fs|
      ensures fs[k].size > 0 && fs[k].value.Some? && Fits(fs[k].value.value, fs[k].size) {
      assert (fs + gs)[k] == fs[k];
    }
    forall k | 0 <= k < |gs|
      ensures gs[k].size > 0 && gs[k].value.Some? && Fits(gs[k].value.value, gs[k].size) {
      assert (fs + gs)[|fs| + k] == gs[k];
    }
    if fs == [] {
      assert fs + gs == gs;
    } else {
      assert (fs + gs)[1..] == fs[1..] + gs;
      PackAppend(fs[1..], gs);
    }
  }

  /** Reading the first group leaves the others. */
  lemma UnpackStep(fs: seq<Field>, gs: seq<Field>, rest: Bytes)
    requires Packable(fs + gs)
    ensures Packable(fs) && Packable(gs) && Widths(Sizes(fs))
    ensures Unpack(Pack(fs + gs) + rest, Sizes(fs)) == Some((Values(fs), Pack(gs) + rest))
  {
    hide Pack, Unpack, Packable, Sizes, Values, Widths;
    PackAppend(fs, gs);
    PackUnpack(fs, Pack(gs) + rest);
    assert Pack(fs + gs) + rest == Pack(fs) + (Pack(gs) + rest);
  }

  // ------------------------------------------------------------------ encoding

  /** ord of the thumbnail size, which raises unless it is one character. */
  function Ord(s: seq<CodePoint>): Option<int> { if |s| == 1 then Some(s[0]) else None }

  function SourceFields(f: FileId): seq<Field> {
    match f.thumbnailSource
    case None => []
    case Some(s) =>
      if s == LEGACY then [Field(f.secret, 8)]
      else if s == THUMBNAIL then [Field(f.thumbnailFileType, 4), Field(Ord(f.thumbnailSize), 4)]
      else if s == CHAT_PHOTO_SMALL || s == CHAT_PHOTO_BIG then [Field(f.chatId, 8), Field(f.chatAccessHash, 8)]
      else if s == STICKER_SET_THUMBNAIL then [Field(f.stickerSetId, 8), Field(f.stickerSetAccessHash, 8)]
      else if s == FULL_LEGACY then [Field(f.volumeId, 8), Field(f.secret, 8), Field(f.localId, 4)]
      else if s == CHAT_PHOTO_SMALL_LEGACY || s == CHAT_PHOTO_BIG_LEGACY then
        [Field(f.chatId, 8), Field(f.chatAccessHash, 8), Field(f.volumeId, 8), Field(f.localId, 4)]
      else if s == STICKER_SET_THUMBNAIL_LEGACY then
        [Field(f.stickerSetId, 8), Field(f.stickerSetAccessHash, 8), Field(f.volumeId, 8), Field(f.localId, 4)]
      else if s == STICKER_SET_THUMBNAIL_VERSION then
        [Field(f.stickerSetId, 8), Field(f.stickerSetAccessHash, 8), Field(f.stickerSetVersion, 4)]
      else []
  }

  function VolumeFields(f: FileId): seq<Field> { if f.minor < 32 then [Field(f.volumeId, 8)] else [] }

  function LocalFields(f: FileId): seq<Field> { if f.minor < 32 then [Field(f.localId, 4)] else [] }

  function SourceTag(f: FileId): seq<Field> {
    if f.major < 4 then []
    else [Field(if f.thumbnailSource.Some? then Some(f.thumbnailSource.value) else None, 4)]
  }

  /** What follows the media id and the access hash. A document writes the version a
      second time, but only while no flag changed the type it is looked up by. */
  function KindFields(f: FileId): seq<Field> {
    if Photo(f.fileType) then VolumeFields(f) + (SourceTag(f) + (SourceFields(f) + LocalFields(f)))
    else if f.fileReference == [] then [Field(Some(f.minor), 4), Field(Some(f.major), 4)]
    else []
  }

  function TypeWord(f: FileId): int {
    if f.fileReference == [] then f.fileType else f.fileType + FILE_REFERENCE_FLAG
  }

  function HeadFields(f: FileId): seq<Field> { [Field(Some(TypeWord(f)), 4), Field(Some(f.dcId), 4)] }

  function BodyFields(f: FileId): seq<Field> {
    [Field(f.mediaId, 8), Field(f.accessHash, 8)] + KindFields(f)
  }

  function Versions(f: FileId): seq<Field> { [Field(Some(f.minor), 1), Field(Some(f.major), 1)] }

  function Reference(f: FileId): Bytes
    requires |f.fileReference| < MAX_BYTES
  {
    if f.fileReference == [] then [] else WriteBytes(f.fileReference)
  }

  /** Every field the id's variant needs is given and fits its width. */
  predicate Writable(f: FileId) {
    && Packable(HeadFields(f)) && |f.fileReference| < MAX_BYTES
    && Packable(BodyFields(f)) && Packable(Versions(f))
  }

  /** The buffer encode fills. */
  function Raw(f: FileId): Bytes
    requires Writable(f)
  {
    Pack(HeadFields(f)) + Reference(f) + Pack(BodyFields(f)) + Pack(Versions(f))
  }

  /** FileId.encode; None where it raises. Versions passed to encode take the place of
      the id's own. */
  function Encode(f: FileId): Option<string> {
    if !Writable(f) then None
    else
      match RleEncode(Raw(f))
      case None => None
      case Some(r) => Some(B64Encode(r))
  }

  // ------------------------------------------------------------------ decoding

  function SourceSizes(s: nat): (r: seq<nat>)
    ensures Widths(r)
  {
    if s == LEGACY then [8]
    else if s == THUMBNAIL then [4, 4]
    else if s == CHAT_PHOTO_SMALL || s == CHAT_PHOTO_BIG || s == STICKER_SET_THUMBNAIL then [8, 8]
    else if s == FULL_LEGACY then [8, 8, 4]
    else if s == CHAT_PHOTO_SMALL_LEGACY || s == CHAT_PHOTO_BIG_LEGACY || s == STICKER_SET_THUMBNAIL_LEGACY then
      [8, 8, 8, 4]
    else if s == STICKER_SET_THUMBNAIL_VERSION then [8, 8, 4]
    else []
  }

  /** chr raises outside the range of code points. */
  predicate Readable(s: nat, v: seq<int>)
    requires |v| == |SourceSizes(s)|
  {
    s == THUMBNAIL ==> 0 <= v[1] < 0x11_0000
  }

  /** The id with what its thumbnail source's fields say. */
  function WithSource(g: FileId, s: nat, v: seq<int>): FileId
    requires |v| == |SourceSizes(s)| && Readable(s, v)
  {
    var h := g.(thumbnailSource := Some(s));
    if s == LEGACY then h.(secret := Some(v[0]))
    else if s == THUMBNAIL then h.(thumbnailFileType := Some(v[0]), thumbnailSize := [v[1]])
    else if s == CHAT_PHOTO_SMALL || s == CHAT_PHOTO_BIG then h.(chatId := Some(v[0]), chatAccessHash := Some(v[1]))
    else if s == STICKER_SET_THUMBNAIL then h.(stickerSetId := Some(v[0]), stickerSetAccessHash := Some(v[1]))
    else if s == FULL_LEGACY then h.(volumeId := Some(v[0]), secret := Some(v[1]), localId := Some(v[2]))
    else if s == CHAT_PHOTO_SMALL_LEGACY || s == CHAT_PHOTO_BIG_LEGACY then
      h.(chatId := Some(v[0]), chatAccessHash := Some(v[1]), volumeId := Some(v[2]), localId := Some(v[3]))
    else if s == STICKER_SET_THUMBNAIL_LEGACY then
      h.(stickerSetId := Some(v[0]), stickerSetAccessHash := Some(v[1]), volumeId := Some(v[2]), localId := Some(v[3]))
    else if s == STICKER_SET_THUMBNAIL_VERSION then
      h.(stickerSetId := Some(v[0]), stickerSetAccessHash := Some(v[1]), stickerSetVersion := Some(v[2]))
    else h
  }

  /** The thumbnail source and what follows it. */
  function DecodeSource(g: FileId, b: Bytes): Option<FileId> {
    match Unpack(b, if g.major < 4 then [] else [4])
    case None => None
    case Some((tag, rest)) =>
      var s := if g.major < 4 then 0 else tag[0];
      if !(0 <= s < 10) then None
      else
        match Unpack(rest, SourceSizes(s))
        case None => None
        case Some((v, after)) =>
          if !Readable(s, v) then None else DecodeLocal(WithSource(g, s, v), after)
  }

  /** The local id comes last and overrides the variant's own. */
  function DecodeLocal(g: FileId, b: Bytes): Option<FileId> {
    if g.minor < 32 then
      match Unpack(b, [4])
      case None => None
      case Some((v, _)) => Some(g.(localId := Some(v[0])))
    else Some(g)
  }

  function DecodePhoto(g: FileId, b: Bytes): Option<FileId> {
    if g.minor < 32 then
      match Unpack(b, [8])
      case None => None
      case Some((v, rest)) => DecodeSource(g.(volumeId := Some(v[0])), rest)
    else DecodeSource(g, b)
  }

  /** An id of these versions with nothing else filled in. */
  function Blank(major: int, minor: int, fileType: nat, dcId: int, reference: Bytes): FileId {
    FileId(major, minor, fileType, dcId, reference, None, None, None, None, None, None, None, [], None, None, None, None, None)
  }

  function DecodeMedia(g: FileId, b: Bytes): Option<FileId> {
    match Unpack(b, [8, 8])
    case None => None
    case Some((v, rest)) =>
      var h := g.(mediaId := Some(v[0]), accessHash := Some(v[1]));
      if Photo(h.fileType) then DecodePhoto(h, rest) else Some(h)
  }

  /** A flag of the type word, for a word of either sign. */
  predicate HasFlag(word: int, flag: nat)
    requires flag > 0
  {
    word / flag % 2 == 1
  }

  /** The part of _decode after the versions; a web location is not part of this
      model and reads as None. */
  function DecodeFields(major: int, minor: int, b: Bytes): Option<FileId> {
    match Unpack(b, [4, 4])
    case None => None
    case Some((v, rest)) =>
      var web, referenced := HasFlag(v[0], WEB_LOCATION_FLAG), HasFlag(v[0], FILE_REFERENCE_FLAG);
      var fileType := v[0] - (if web then WEB_LOCATION_FLAG else 0) - (if referenced then FILE_REFERENCE_FLAG else 0);
      if !(0 <= fileType < 18) || web then None
      else if referenced then
        var (reference, after) := ReadBytes(rest);
        DecodeMedia(Blank(major, minor, fileType, v[1], reference), after)
      else DecodeMedia(Blank(major, minor, fileType, v[1], []), rest)
  }

  /** _decode from the expanded bytes: the versions are at the end. */
  function DecodeRaw(d: Bytes): Option<FileId> {
    if |d| == 0 then None
    else
      var major := d[|d| - 1];
      if major < 4 then DecodeFields(major, 0, d[..|d| - 1])
      else if |d| < 2 then None
      else DecodeFields(major, d[|d| - 2], d[..|d| - 2])
  }

  /** FileId._decode. */
  function Decode(s: string): Option<FileId> {
    match B64Decode(s)
    case None => None
    case Some(b) =>
      var d := RleExpand(b, false);
      if AllBytes(d) then DecodeRaw(AsBytes(d)) else None
  }

  // ---------------------------------------------------------------- round trip

  /** g with the source's fields of f. */
  function SourceGiven(f: FileId, g: FileId): FileId
    requires f.thumbnailSource.Some?
  {
    var s := f.thumbnailSource.value;
    var h := g.(thumbnailSource := Some(s));
    if s == LEGACY then h.(secret := f.secret)
    else if s == THUMBNAIL then h.(thumbnailFileType := f.thumbnailFileType, thumbnailSize := f.thumbnailSize)
    else if s == CHAT_PHOTO_SMALL || s == CHAT_PHOTO_BIG then
      h.(chatId := f.chatId, chatAccessHash := f.chatAccessHash)
    else if s == STICKER_SET_THUMBNAIL then
      h.(stickerSetId := f.stickerSetId, stickerSetAccessHash := f.stickerSetAccessHash)
    else if s == FULL_LEGACY then h.(volumeId := f.volumeId, secret := f.secret, localId := f.localId)
    else if s == CHAT_PHOTO_SMALL_LEGACY || s == CHAT_PHOTO_BIG_LEGACY then
      h.(chatId := f.chatId, chatAccessHash := f.chatAccessHash, volumeId := f.volumeId, localId := f.localId)
    else if s == STICKER_SET_THUMBNAIL_LEGACY then
      h.(stickerSetId := f.stickerSetId, stickerSetAccessHash := f.stickerSetAccessHash,
         volumeId := f.volumeId, localId := f.localId)
    else if s == STICKER_SET_THUMBNAIL_VERSION then
      h.(stickerSetId := f.stickerSetId, stickerSetAccessHash := f.stickerSetAccessHash,
         stickerSetVersion := f.stickerSetVersion)
    else h
  }

  /** The fields of f its variant carries; the others are lost. */
  function Canon(f: FileId): FileId {
    var g := Blank(f.major, f.minor, f.fileType, f.dcId, f.fileReference)
      .(mediaId := f.mediaId, accessHash := f.accessHash);
    if Photo(f.fileType) then CanonPhoto(f, g) else g
  }

  /** g with the photo fields of f: the volume first, the local id last. */
  function CanonPhoto(f: FileId, g: FileId): FileId {
    var h := if f.minor < 32 then g.(volumeId := f.volumeId) else g;
    CanonSource(f, h)
  }

  function CanonSource(f: FileId, g: FileId): FileId {
    var h := if f.thumbnailSource.Some? then SourceGiven(f, g) else g;
    if f.minor < 32 then h.(localId := f.localId) else h
  }

  /** The versions under which the decoder reads what the encoder wrote: from major
      4 on any unsigned pair; below it the decoder takes minor 0 and the legacy
      source for granted. */
  predicate Decodable(f: FileId) {
    && f.major >= 0 && f.minor >= 0
    && (f.major >= 4 || (f.minor == 0 && (Photo(f.fileType) ==> f.thumbnailSource == Some(LEGACY))))
  }

  lemma SourceStep(f: FileId, g: FileId, after: seq<Field>, rest: Bytes)
    requires Typed(f) && f.thumbnailSource.Some? && Packable(SourceFields(f) + after)
    ensures var s := f.thumbnailSource.value;
            && Packable(after)
            && var u := Unpack(Pack(SourceFields(f) + after) + rest, SourceSizes(s));
               u.Some? && u.value.1 == Pack(after) + rest && Readable(s, u.value.0)
               && WithSource(g, s, u.value.0) == SourceGiven(f, g)
  {
    hide Pack, Unpack, Fits;
    var s := f.thumbnailSource.value;
    var fs := SourceFields(f);
    UnpackStep(fs, after, rest);
    assert Sizes(fs) == SourceSizes(s);
  }

  lemma LocalStep(f: FileId, g: FileId, rest: Bytes)
    requires g.minor == f.minor && Packable(LocalFields(f))
    ensures DecodeLocal(g, Pack(LocalFields(f)) + rest)
         == Some(if f.minor < 32 then g.(localId := f.localId) else g)
  {
    hide Pack, Unpack, Fits;
    if f.minor < 32 {
      PackUnpack(LocalFields(f), rest);
      assert Sizes(LocalFields(f)) == [4];
    }
  }

  lemma TagPacks(f: FileId, after: seq<Field>)
    requires Packable(SourceTag(f) + after) && f.major >= 4
    ensures f.thumbnailSource.Some? && Packable(SourceTag(f))
    ensures Values(SourceTag(f)) == [f.thumbnailSource.value]
  {
    assert (SourceTag(f) + after)[0] == SourceTag(f)[0];
  }

  lemma SourceDecodes(f: FileId, g: FileId, rest: Bytes)
    requires Typed(f) && g.major == f.major && g.minor == f.minor
    requires f.major < 4 ==> f.thumbnailSource == Some(LEGACY)
    requires Packable(SourceTag(f) + (SourceFields(f) + LocalFields(f)))
    ensures f.thumbnailSource.Some?
    ensures DecodeSource(g, Pack(SourceTag(f) + (SourceFields(f) + LocalFields(f))) + rest) == Some(CanonSource(f, g))
  {
    hide Pack, Unpack, Fits, SourceFields, LocalFields, WithSource, SourceGiven, Readable, SourceSizes, Packable;
    var after := SourceFields(f) + LocalFields(f);
    UnpackStep(SourceTag(f), after, rest);
    assert Sizes(SourceTag(f)) == if f.major < 4 then [] else [4];
    if f.major >= 4 { TagPacks(f, after); }
    SourceStep(f, g, LocalFields(f), rest);
    SourceKeepsMinor(f, g);
    LocalStep(f, SourceGiven(f, g), rest);
  }

  lemma SourceKeepsMinor(f: FileId, g: FileId)
    requires f.thumbnailSource.Some?
    ensures SourceGiven(f, g).minor == g.minor && SourceGiven(f, g).major == g.major
  {}

  lemma PhotoDecodes(f: FileId, g: FileId, rest: Bytes)
    requires Typed(f) && Photo(f.fileType) && g.major == f.major && g.minor == f.minor
    requires f.major < 4 ==> f.thumbnailSource == Some(LEGACY)
    requires Packable(KindFields(f))
    ensures DecodePhoto(g, Pack(KindFields(f)) + rest) == Some(CanonPhoto(f, g))
  {
    hide Pack, Unpack, Fits, SourceFields, LocalFields, SourceTag, DecodeSource, CanonSource;
    var after := SourceTag(f) + (SourceFields(f) + LocalFields(f));
    UnpackStep(VolumeFields(f), after, rest);
    if f.minor < 32 {
      assert Sizes(VolumeFields(f)) == [8];
      SourceDecodes(f, g.(volumeId := f.volumeId), rest);
    } else {
      assert VolumeFields(f) + after == after;
      SourceDecodes(f, g, rest);
    }
  }

  lemma MediaDecodes(f: FileId, rest: Bytes)
    requires Typed(f) && Packable(BodyFields(f))
    requires Photo(f.fileType) && f.major < 4 ==> f.thumbnailSource == Some(LEGACY)
    ensures DecodeMedia(Blank(f.major, f.minor, f.fileType, f.dcId, f.fileReference), Pack(BodyFields(f)) + rest)
         == Some(Canon(f))
  {
    hide Pack, Unpack, Fits, KindFields, DecodePhoto, CanonPhoto;
    var ids := [Field(f.mediaId, 8), Field(f.accessHash, 8)];
    UnpackStep(ids, KindFields(f), rest);
    assert Sizes(ids) == [8, 8];
    if Photo(f.fileType) {
      var g := Blank(f.major, f.minor, f.fileType, f.dcId, f.fileReference)
        .(mediaId := f.mediaId, accessHash := f.accessHash);
      PhotoDecodes(f, g, rest);
    }
  }

  lemma FlagsOf(t: nat, referenced: bool)
    requires t < 18
    ensures var word := if referenced then t + FILE_REFERENCE_FLAG else t;
            !HasFlag(word, WEB_LOCATION_FLAG) && (HasFlag(word, FILE_REFERENCE_FLAG) <==> referenced)
  {}

  /** Everything after the versions is read back, whatever stands behind it. */
  lemma FieldsDecode(f: FileId, rest: Bytes)
    requires Typed(f) && Writable(f)
    requires Photo(f.fileType) && f.major < 4 ==> f.thumbnailSource == Some(LEGACY)
    ensures DecodeFields(f.major, f.minor, Pack(HeadFields(f)) + Reference(f) + Pack(BodyFields(f)) + rest)
         == Some(Canon(f))
  {
    hide Pack, Unpack, Fits, BodyFields, DecodeMedia, Canon, HasFlag, WriteBytes, ReadBytes;
    var tail := Pack(BodyFields(f)) + rest;
    PackUnpack(HeadFields(f), Reference(f) + tail);
    assert Sizes(HeadFields(f)) == [4, 4];
    assert Pack(HeadFields(f)) + Reference(f) + Pack(BodyFields(f)) + rest == Pack(HeadFields(f)) + (Reference(f) + tail);
    FlagsOf(f.fileType, f.fileReference != []);
    MediaDecodes(f, rest);
    if f.fileReference == [] {
      assert Reference(f) + tail == tail;
    } else {
      BytesRoundTrip(f.fileReference, tail);
    }
  }

  lemma ByteOf(i: int)
    requires Fits(i, 1)
    ensures WriteInt(i, 1) == [i % 256] && -128 <= i < 128
  {
    assert Pow256(1) == 256 && Half(1) == 128;
    var n: nat := if i >= 0 then i else i + 256;
    assert LittleEndian(n, 1) == [n % 256] + LittleEndian(n / 256, 0);
  }

  lemma VersionBytes(f: FileId)
    requires Packable(Versions(f))
    ensures Pack(Versions(f)) == [f.minor % 256, f.major % 256]
    ensures -128 <= f.minor < 128 && -128 <= f.major < 128
  {
    hide WriteInt, Fits;
    var vs := Versions(f);
    assert Fits(vs[0].value.value, 1) && Fits(vs[1].value.value, 1);
    ByteOf(f.minor);
    ByteOf(f.major);
    var last := vs[1..];
    assert last == [Field(Some(f.major), 1)] && last[1..] == [];
    assert Pack(last[1..]) == [];
    assert Pack(last) == [f.major % 256];
  }

  /** The versions of g, and the legacy source below major 4. */
  predicate Kept(g: FileId, r: Option<FileId>) {
    r.Some? ==> r.value.major == g.major && r.value.minor == g.minor && r.value.fileType == g.fileType
                && (g.major < 4 && Photo(g.fileType) ==> r.value.thumbnailSource == Some(LEGACY))
  }

  lemma SourceKeeps(g: FileId, b: Bytes)
    ensures Kept(g, DecodeSource(g, b))
  {
    hide Unpack;
  }

  lemma MediaKeeps(g: FileId, b: Bytes)
    ensures Kept(g, DecodeMedia(g, b))
  {
    hide Unpack, DecodeSource;
    if Unpack(b, [8, 8]).Some? && Photo(g.fileType) {
      var (v, rest) := Unpack(b, [8, 8]).value;
      var h := g.(mediaId := Some(v[0]), accessHash := Some(v[1]));
      if g.minor < 32 && Unpack(rest, [8]).Some? {
        var (w, after) := Unpack(rest, [8]).value;
        SourceKeeps(h.(volumeId := Some(w[0])), after);
      } else {
        SourceKeeps(h, rest);
      }
    }
  }

  lemma SameVersions(major: int, minor: int, b: Bytes)
    ensures var r := DecodeFields(major, minor, b);
            r.Some? ==> r.value.major == major && r.value.minor == minor
                        && (major < 4 && Photo(r.value.fileType) ==> r.value.thumbnailSource == Some(LEGACY))
  {
    hide Unpack, ReadBytes, HasFlag, DecodeMedia;
    if Unpack(b, [4, 4]).Some? {
      var (v, rest) := Unpack(b, [4, 4]).value;
      var web, referenced := HasFlag(v[0], WEB_LOCATION_FLAG), HasFlag(v[0], FILE_REFERENCE_FLAG);
      var fileType := v[0] - (if web then WEB_LOCATION_FLAG else 0) - (if referenced then FILE_REFERENCE_FLAG else 0);
      if 0 <= fileType {
        var (reference, after) := if referenced then ReadBytes(rest) else ([], rest);
        MediaKeeps(Blank(major, minor, fileType, v[1], reference), after);
      }
    }
  }

  /** What the raw bytes decode to. */
  lemma RawDecodes(f: FileId)
    requires Typed(f) && Writable(f)
    ensures DecodeRaw(Raw(f)) == Some(Canon(f)) <==> Decodable(f)
  {
    hide Pack, Unpack, Fits, BodyFields, HeadFields, Reference, DecodeFields, Packable;
    VersionBytes(f);
    var core := Pack(HeadFields(f)) + Reference(f) + Pack(BodyFields(f));
    var d := Raw(f);
    assert d == core + [f.minor % 256, f.major % 256];
    assert d[..|d| - 2] == core && d[..|d| - 1] == core + [f.minor % 256];
    if Decodable(f) {
      FieldsDecode(f, if f.major < 4 then [f.minor % 256] else []);
      assert core + [] == core;
    } else {
      SameVersions(f.major % 256, if f.major % 256 < 4 then 0 else f.minor % 256,
                   if f.major % 256 < 4 then d[..|d| - 1] else d[..|d| - 2]);
      CanonKeeps(f);
    }
  }

  lemma CanonKeeps(f: FileId)
    ensures Canon(f).major == f.major && Canon(f).minor == f.minor && Canon(f).fileType == f.fileType
    ensures Photo(f.fileType) ==> Canon(f).thumbnailSource == f.thumbnailSource
  {}

  /** For every id without a web location: encode succeeds exactly when the fields
      its variant needs are there, fit, and give no 256 zero bytes in a row, and
      _decode then gives those fields back exactly when the versions allow it. */
  lemma EncodeDecodes(f: FileId)
    requires Typed(f)
    ensures Encode(f).Some? <==> Writable(f) && !LongRun(Raw(f))
    ensures Encode(f).Some? ==> (Decode(Encode(f).value) == Some(Canon(f)) <==> Decodable(f))
  {
    hide Writable, Raw, DecodeRaw, Canon, Decodable, RleExpand, RleEncode, B64Encode, B64Decode, LongRun;
    if Writable(f) {
      RleRoundTrip(Raw(f));
      if RleEncode(Raw(f)).Some? {
        B64RoundTrip(RleEncode(Raw(f)).value);
        RawDecodes(f);
        assert AsBytes(Raw(f)) == Raw(f);
      }
    }
  }

  lemma {:induction false} PackLength(fs: seq<Field>)
    requires Packable(fs) && forall k :: 0 <= k < |fs| ==> fs[k].size <= 8
    ensures |Pack(fs)| <= 8 * |fs|
  {
    hide Fits, WriteInt;
    if fs != [] { PackLength(fs[1..]); }
  }

  /** A sticker's id with these versions. */
  function Sticker(major: int, minor: int): FileId {
    FileId(major, minor, 8, 2, [], Some(1), Some(1), None, None, None, None, None, [], None, None, None, None, None)
  }

  /** An id encoded with a negative version, or with a minor version below major 4,
      does not come back. */
  lemma VersionsLost(major: int, minor: int)
    requires (major, minor) == (-1, 0) || (major, minor) == (4, -1) || (major, minor) == (3, 30)
    ensures var text := Encode(Sticker(major, minor));
            text.Some? && Decode(text.value) != Some(Canon(Sticker(major, minor)))
  {
    hide Raw, Decode, Canon, Encode, LongRun, Pack;
    var f := Sticker(major, minor);
    EncodeDecodes(f);
    StickerFits(major, minor);
    PackLength(HeadFields(f));
    PackLength(BodyFields(f));
    PackLength(Versions(f));
    ShortRun(f);
  }

  lemma StickerFits(major: int, minor: int)
    requires -128 <= major < 128 && -128 <= minor < 128
    ensures Writable(Sticker(major, minor))
  {
    assert Pow256(1) == 256;
    Four();
    assert Pow256(8) == 256 * (256 * (256 * (256 * Pow256(4))));
  }

  lemma ShortRun(f: FileId)
    requires Writable(f) && f.fileReference == []
    requires |Pack(HeadFields(f))| + |Pack(BodyFields(f))| + |Pack(Versions(f))| < 256
    ensures !LongRun(Raw(f))
  {
    hide Pack;
  }

  // ------------------------------------------------------------- byte for byte

  /** A number's bytes; none for one that is missing or does not fit. */
  function Wire(value: Option<int>, size: nat): Bytes
    requires size > 0
  {
    if value.Some? && Fits(value.value, size) then WriteInt(value.value, size) else []
  }

  lemma PackOne(value: Option<int>, size: nat)
    requires Packable([Field(value, size)])
    ensures size > 0 && value.Some? && Pack([Field(value, size)]) == Wire(value, size)
  {
    hide WriteInt, Fits;
    var fs := [Field(value, size)];
    assert fs[0].value.Some? && fs[1..] == [];
    assert Pack(fs) == WriteInt(value.value, size) + [];
  }

  lemma PackTwo(first: Option<int>, second: Option<int>, size: nat)
    requires Packable([Field(first, size), Field(second, size)])
    ensures size > 0 && first.Some? && second.Some?
    ensures Pack([Field(first, size), Field(second, size)]) == Wire(first, size) + Wire(second, size)
  {
    hide WriteInt, Fits;
    var fs := [Field(first, size), Field(second, size)];
    assert fs[0].value.Some? && fs[1].value.Some? && fs[1..] == [Field(second, size)];
    PackOne(second, size);
  }

  /** The type word, with its second-highest flag set if a reference follows, the
      data centre, the reference, media id and access hash, what the kind adds, and
      the two versions in a byte each. */
  lemma RawLayout(f: FileId)
    requires Typed(f) && Writable(f)
    ensures f.mediaId.Some? && f.accessHash.Some? && Packable(KindFields(f))
    ensures Raw(f)
         == Wire(Some(if f.fileReference == [] then f.fileType else f.fileType + 33554432), 4) + Wire(Some(f.dcId), 4)
            + (if f.fileReference == [] then [] else WriteBytes(f.fileReference))
            + (Wire(f.mediaId, 8) + Wire(f.accessHash, 8) + Pack(KindFields(f)))
            + (Wire(Some(f.minor), 1) + Wire(Some(f.major), 1))
  {
    hide Pack, WriteBytes, KindFields, Wire, Packable;
    var ids := [Field(f.mediaId, 8), Field(f.accessHash, 8)];
    PackAppend(ids, KindFields(f));
    PackTwo(f.mediaId, f.accessHash, 8);
    PackTwo(Some(TypeWord(f)), Some(f.dcId), 4);
    PackTwo(Some(f.minor), Some(f.major), 1);
  }

  /** What a document adds, the versions again in four bytes each if it has no
      reference, and what a photo of any of the five types does. */
  lemma KindLayout(f: FileId)
    requires Typed(f) && Packable(KindFields(f))
    ensures f.fileType !in {0, 1, 2, 11, 12} ==>
      Pack(KindFields(f)) == if f.fileReference == [] then Wire(Some(f.minor), 4) + Wire(Some(f.major), 4) else []
    ensures f.fileType in {0, 1, 2, 11, 12} ==>
      && (f.minor < 32 ==> f.volumeId.Some? && f.localId.Some?) && (f.major >= 4 ==> f.thumbnailSource.Some?)
      && Packable(SourceFields(f))
      && Pack(KindFields(f))
         == (if f.minor < 32 then Wire(f.volumeId, 8) else [])
            + ((if f.major >= 4 then Wire(Some(f.thumbnailSource.value), 4) else [])
               + (Pack(SourceFields(f)) + if f.minor < 32 then Wire(f.localId, 4) else []))
  {
    hide Pack, SourceFields, Wire, Packable;
    PackNone();
    if f.fileType !in {0, 1, 2, 11, 12} {
      if f.fileReference == [] { PackTwo(Some(f.minor), Some(f.major), 4); }
    } else {
      var inner := SourceFields(f) + LocalFields(f);
      PackAppend(VolumeFields(f), SourceTag(f) + inner);
      PackAppend(SourceTag(f), inner);
      PackAppend(SourceFields(f), LocalFields(f));
      if f.minor < 32 {
        PackOne(f.volumeId, 8);
        PackOne(f.localId, 4);
      }
      if f.major >= 4 { PackOne(if f.thumbnailSource.Some? then Some(f.thumbnailSource.value) else None, 4); }
    }
  }

  lemma PackNone()
    ensures Pack([]) == []
  {}

  /** A file type or a thumbnail source that the enumerations do not have is refused. */
  lemma UnknownRefused(g: FileId, major: int, minor: int, b: Bytes, v: int, rest: Bytes)
    ensures Unpack(b, [4, 4]) == Some(([v, g.dcId], rest)) && 18 <= v < 0x100_0000 ==> DecodeFields(major, minor, b) == None
    ensures g.major >= 4 && Unpack(b, [4]) == Some(([v], rest)) && !(0 <= v <= 9) ==> DecodeSource(g, b) == None
  {
    hide Unpack, DecodeMedia, DecodeLocal, WithSource;
  }
}
