/** Classification of an entry by its Go `os.FileMode` type bits, and the
    rendering of the permission bits of the raw `stat` mode. */
module FileMode {
  import opened Fmt

  /** os.FileMode, a uint32 whose high bits give the entry's type. */
  type Mode = bv32

  const ModeDir: Mode        := 0x8000_0000  // 1 << 31
  const ModeSymlink: Mode    := 0x0800_0000  // 1 << 27
  const ModeDevice: Mode     := 0x0400_0000  // 1 << 26
  const ModeNamedPipe: Mode  := 0x0200_0000  // 1 << 25
  const ModeSocket: Mode     := 0x0100_0000  // 1 << 24
  const ModeCharDevice: Mode := 0x0020_0000  // 1 << 21
  const ModeIrregular: Mode  := 0x0008_0000  // 1 << 19
  const ModeType: Mode :=
    ModeDir | ModeSymlink | ModeNamedPipe | ModeSocket | ModeDevice | ModeCharDevice | ModeIrregular

  /** All bits of `flag` are set in `m` (`m & flag == flag`). */
  predicate Has(m: Mode, flag: Mode) {
    m & flag == flag
  }

  /** FileMode.IsDir: the directory bit is set. */
  predicate IsDir(m: Mode): (b: bool)
    ensures b <==> Has(m, ModeDir)
  {
    m & ModeDir != 0
  }

  /** FileMode.IsRegular: no type bit is set. */
  predicate IsRegular(m: Mode): (b: bool)
    ensures b <==> !Has(m, ModeDir) && !Has(m, ModeSymlink) && !Has(m, ModeNamedPipe)
                   && !Has(m, ModeSocket) && !Has(m, ModeDevice)
                   && !Has(m, ModeCharDevice) && !Has(m, ModeIrregular)
  {
    m & ModeType == 0
  }

  const Labels: set<string> :=
    {"symlink", "character-device", "block-device", "pipe", "socket", "directory", "file"}

  /** The type label of an entry, tested in the order
      of the `switch` in `DefFile.Filetype`;
      a combination no case recognises is reported as a regular file. */
  function Filetype(m: Mode): (kind: string)
    ensures kind in Labels
    ensures Has(m, ModeSymlink) ==> kind == "symlink"
  {
    if Has(m, ModeSymlink) then "symlink"
    else if Has(m, ModeDevice) then
      if Has(m, ModeCharDevice) then "character-device" else "block-device"
    else if Has(m, ModeNamedPipe) then "pipe"
    else if Has(m, ModeSocket) then "socket"
    else if IsDir(m) then "directory"
    else if IsRegular(m) then "file"
    else "file"
  }

  /** Every mode gets exactly one of the seven labels, and which one is
      decided by the first type bit in the precedence order symlink, device
      (character or block), named pipe, socket, directory; with none of them
      set the label is "file". */
  lemma FiletypeClassification(m: Mode)
    ensures Filetype(m) in Labels
    ensures Filetype(m) == "symlink" <==> Has(m, ModeSymlink)
    ensures Filetype(m) == "character-device" <==>
              !Has(m, ModeSymlink) && Has(m, ModeDevice) && Has(m, ModeCharDevice)
    ensures Filetype(m) == "block-device" <==>
              !Has(m, ModeSymlink) && Has(m, ModeDevice) && !Has(m, ModeCharDevice)
    ensures Filetype(m) == "pipe" <==>
              !Has(m, ModeSymlink) && !Has(m, ModeDevice) && Has(m, ModeNamedPipe)
    ensures Filetype(m) == "socket" <==>
              !Has(m, ModeSymlink) && !Has(m, ModeDevice) && !Has(m, ModeNamedPipe) && Has(m, ModeSocket)
    ensures Filetype(m) == "directory" <==>
              !Has(m, ModeSymlink) && !Has(m, ModeDevice) && !Has(m, ModeNamedPipe)
              && !Has(m, ModeSocket) && IsDir(m)
    ensures Filetype(m) == "file" <==>
              !Has(m, ModeSymlink) && !Has(m, ModeDevice) && !Has(m, ModeNamedPipe)
              && !Has(m, ModeSocket) && !IsDir(m)
  {
  }

  /** The permission, set-id and sticky bits of a raw `stat` mode:
      `st_mode & 07777`. */
  function PermissionBits(stMode: bv32): (p: nat)
    ensures p < 4096
  {
    (stMode & 0xFFF) as int
  }

  /** fmt.Sprintf("%04o", stMode & 07777) */
  function PermissionString(stMode: bv32): (s: string)
    ensures |s| == 4 && AllOctal(s)
  {
    Octal04RoundTrip(PermissionBits(stMode));
    Octal04(PermissionBits(stMode))
  }

  /** The permission string is four octal digits that read back as
      `st_mode & 07777`. */
  lemma PermissionStringRoundTrip(stMode: bv32)
    ensures |PermissionString(stMode)| == 4 && AllOctal(PermissionString(stMode))
    ensures ParseOctal(PermissionString(stMode)) == (stMode & 0xFFF) as int
  {
    Octal04RoundTrip(PermissionBits(stMode));
  }

  /** Bits above 07777 (the file type in `st_mode`) never reach the string. */
  lemma PermissionStringIgnoresTypeBits(a: bv32, b: bv32)
    requires a & 0xFFF == b & 0xFFF
    ensures PermissionString(a) == PermissionString(b)
  {
  }
}
