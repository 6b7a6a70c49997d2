/** What each file query computes once the path is resolved, as a function
    of the answers the host gives (system/file.go, the bodies of the DefFile
    methods after their `setup` call). */
module FileQuery {
  import opened Base
  import opened Fmt
  import opened Identity
  import opened PathResolve
  import FileMode

  /** The platform `syscall.Stat_t` fields the package reads. */
  datatype StatT = StatT(mode: bv32, uid: nat, gid: nat)

  /** What os.Lstat reports about an entry (the entry itself, never a link
      target): Mode(), Size() and Sys(). */
  datatype FileInfo = FileInfo(mode: FileMode.Mode, size: int, sys: StatT)

  /** An open file, as os.Open returns it. */
  datatype Handle = Handle(id: nat)

  /** Everything the package asks of the host, as the answers the host gives at
      the time of a call. */
  datatype Host = Host(
    lstat: string -> Result<FileInfo>,   // os.Lstat
    open: string -> Result<Handle>,      // os.Open
    readAll: Handle -> Result<Bytes>,    // io.Copy draining the handle
    readlink: string -> Result<string>,  // os.Readlink
    ids: IdentityDb,
    getent: Getent,
    abs: AbsPath,                        // filepath.Abs
    md5: Bytes -> Bytes,                 // the MD5 digest of some content
    sha256: Bytes -> Bytes)              // the SHA-256 digest of some content

  /** Exists: a missing entry is (false, nil); any other Lstat error comes
      back with the value true. */
  function ExistsAt(info: Result<FileInfo>): (r: Reply<bool>)
    ensures !r.value ==> r.err == None
    ensures r.err.Some? ==> info.Err? && r.err.value == info.error
  {
    match info
    case Err(e) => if IsNotExist(e) then Reply(false, None) else Reply(true, Some(e))
    case Ok(_) => Reply(true, None)
  }

  function ModeAt(info: Result<FileInfo>): (r: Reply<string>)
    ensures info.Err? ==> r == Reply("", Some(info.error))
    ensures info.Ok? ==> r.err == None && |r.value| == 4 && AllOctal(r.value)
  {
    match info
    case Err(e) => Reply("", Some(e))
    case Ok(fi) => Reply(FileMode.PermissionString(fi.sys.mode), None)
  }

  function SizeAt(info: Result<FileInfo>): (r: Reply<int>)
    ensures info.Err? ==> r == Reply(0, Some(info.error))
    ensures info.Ok? ==> r == Reply(info.value.size, None)
  {
    match info
    case Err(e) => Reply(0, Some(e))
    case Ok(fi) => Reply(fi.size, None)
  }

  function FiletypeAt(info: Result<FileInfo>): (r: Reply<string>)
    ensures info.Err? ==> r == Reply("", Some(info.error))
    ensures info.Ok? ==> r.err == None && r.value in FileMode.Labels
  {
    match info
    case Err(e) => Reply("", Some(e))
    case Ok(fi) => Reply(FileMode.Filetype(fi.mode), None)
  }

  function OwnerAt(info: Result<FileInfo>, db: IdentityDb, getent: Getent): (r: Reply<string>)
    ensures info.Err? ==> r == Reply("", Some(info.error))
    ensures info.Ok? && db.lookupUid(info.value.sys.uid).Ok? ==>
              r == Reply(db.lookupUid(info.value.sys.uid).value.name, None)
  {
    match info
    case Err(e) => Reply("", Some(e))
    case Ok(fi) => UserForUid(fi.sys.uid, db, getent)
  }

  function GroupAt(info: Result<FileInfo>, db: IdentityDb, getent: Getent): (r: Reply<string>)
    ensures info.Err? ==> r == Reply("", Some(info.error))
    ensures info.Ok? && db.lookupGid(info.value.sys.gid).Ok? ==>
              r == Reply(db.lookupGid(info.value.sys.gid).value.name, None)
  {
    match info
    case Err(e) => Reply("", Some(e))
    case Ok(fi) => GroupForGid(fi.sys.gid, db, getent)
  }

  function LinkedToAt(link: Result<string>): (r: Reply<string>)
    ensures link.Err? ==> r == Reply("", Some(link.error))
    ensures link.Ok? ==> r == Reply(link.value, None)
  {
    match link
    case Err(e) => Reply("", Some(e))
    case Ok(dst) => Reply(dst, None)
  }

  function ContainsAt(handle: Result<Handle>): (r: Reply<Option<Handle>>)
    ensures r.value.Some? <==> r.err == None
    ensures handle.Err? ==> r.err == Some(handle.error)
    ensures handle.Ok? ==> r.value == Some(handle.value)
  {
    match handle
    case Err(e) => Reply(None, Some(e))
    case Ok(fh) => Reply(Some(fh), None)
  }

  /** Md5 and Sha256: open, read everything through the digest, print it
      with %x. */
  function DigestAt(handle: Result<Handle>, readAll: Handle -> Result<Bytes>,
                    digest: Bytes -> Bytes): (r: Reply<string>)
    ensures r.err.Some? ==> r.value == ""
    ensures r.err == None <==> handle.Ok? && readAll(handle.value).Ok?
    ensures r.err == None ==> |r.value| == 2 * |digest(readAll(handle.value).value)|
  {
    match handle
    case Err(e) => Reply("", Some(e))
    case Ok(fh) =>
      match readAll(fh)
      case Err(e) => Reply("", Some(e))
      case Ok(content) => Reply(HexEncode(digest(content)), None)
  }

  /** Exists tells a missing entry apart from an error: (false, nil) exactly
      when Lstat says the path does not exist, (true, nil) exactly when Lstat
      succeeds, and every other failure comes back as its error. */
  lemma ExistsOutcomes(info: Result<FileInfo>)
    ensures ExistsAt(info) == Reply(false, None) <==> info.Err? && IsNotExist(info.error)
    ensures ExistsAt(info) == Reply(true, None) <==> info.Ok?
    ensures ExistsAt(info).err.Some? <==> info.Err? && !IsNotExist(info.error)
    ensures ExistsAt(info).err.Some? ==> ExistsAt(info).err.value == info.error
  {
  }

  /** An Lstat, Readlink or Open error is returned as it is, with the zero
      value of the query's type. */
  lemma QueryErrorsPropagate(info: Result<FileInfo>, link: Result<string>, handle: Result<Handle>,
                             db: IdentityDb, getent: Getent,
                             readAll: Handle -> Result<Bytes>, digest: Bytes -> Bytes)
    ensures info.Err? ==>
              && ModeAt(info) == Reply("", Some(info.error))
              && SizeAt(info) == Reply(0, Some(info.error))
              && FiletypeAt(info) == Reply("", Some(info.error))
              && OwnerAt(info, db, getent) == Reply("", Some(info.error))
              && GroupAt(info, db, getent) == Reply("", Some(info.error))
    ensures link.Err? ==> LinkedToAt(link) == Reply("", Some(link.error))
    ensures handle.Err? ==>
              && ContainsAt(handle) == Reply(None, Some(handle.error))
              && DigestAt(handle, readAll, digest) == Reply("", Some(handle.error))
  {
  }

  /** After a successful Lstat, Mode never fails and gives four octal digits
      that read back as the permission bits of st_mode. */
  lemma ModeAtFormat(info: Result<FileInfo>)
    requires info.Ok?
    ensures ModeAt(info).err == None
    ensures |ModeAt(info).value| == 4 && AllOctal(ModeAt(info).value)
    ensures ParseOctal(ModeAt(info).value) == (info.value.sys.mode & 0xFFF) as int
  {
    FileMode.PermissionStringRoundTrip(info.value.sys.mode);
  }

  /** After a successful Lstat, Filetype never fails and gives one of the
      seven labels. */
  lemma FiletypeAtTotal(info: Result<FileInfo>)
    requires info.Ok?
    ensures FiletypeAt(info).err == None && FiletypeAt(info).value in FileMode.Labels
  {
    FileMode.FiletypeClassification(info.value.mode);
  }

  /** A digest is a function of the content alone: two files whose reads
      give the same bytes get the same string, of two hex digits per digest
      byte; a read error is returned as it is. */
  lemma DigestAtContent(o1: Result<Handle>, r1: Handle -> Result<Bytes>,
                        o2: Result<Handle>, r2: Handle -> Result<Bytes>,
                        digest: Bytes -> Bytes)
    requires o1.Ok? && o2.Ok?
    ensures r1(o1.value).Err? ==> DigestAt(o1, r1, digest) == Reply("", Some(r1(o1.value).error))
    ensures r1(o1.value).Ok? ==>
              DigestAt(o1, r1, digest).err == None
              && |DigestAt(o1, r1, digest).value| == 2 * |digest(r1(o1.value).value)|
              && HexDecode(DigestAt(o1, r1, digest).value) == digest(r1(o1.value).value)
    ensures r1(o1.value).Ok? && r2(o2.value) == r1(o1.value) ==>
              DigestAt(o1, r1, digest) == DigestAt(o2, r2, digest)
  {
    if r1(o1.value).Ok? {
      HexRoundTrip(digest(r1(o1.value).value));
    }
  }
}
