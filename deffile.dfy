/** The file entity (system/file.go, DefFile): a path whose home-directory
    shorthand is resolved on first use, once, with the outcome kept in
    fields and replayed on every later call. */
module File {
  import opened Base
  import opened GoStrings
  import opened PathResolve
  import opened FileQuery

  class DefFile {
    var path: string
    var realPath: string
    var loaded: bool
    var err: Option<Error>
    /** How many times realPath has been evaluated for this entity. */
    ghost var resolutions: nat
    /** How many Lstat, Open or Readlink calls this entity has made; the read
        that follows an Open is not counted separately. */
    ghost var fsCalls: nat

    /** Resolution has run exactly once if `loaded`, and not at all before;
        until then nothing has been recorded. */
    ghost predicate Valid()
      reads this
      ensures Valid() ==> resolutions <= 1
    {
      && resolutions == (if loaded then 1 else 0)
      && (!loaded ==> realPath == "" && err == None)
    }

    /** NewDefFile: a path without '~' is made absolute at once, the error of
        filepath.Abs being dropped; a '~' path is kept for setup. */
    constructor (path: string, abs: AbsPath)
      ensures Valid() && !loaded && fsCalls == 0
      ensures this.path == if HasPrefix(path, "~") then path else abs(path).value
    {
      this.path := if HasPrefix(path, "~") then path else abs(path).value;
      realPath := "";
      loaded := false;
      err := None;
      resolutions := 0;
      fsCalls := 0;
    }

    function Path(): (p: string)
      reads this
      ensures p == path
    {
      path
    }

    /** The state setup leaves behind, against the state before it: the first
        call records realPath's pair; a later one changes nothing. */
    twostate predicate SetUp(host: Host)
      reads this
    {
      && Valid() && loaded && path == old(path)
      && (old(loaded) ==>
            realPath == old(realPath) && err == old(err) && resolutions == old(resolutions))
      && (!old(loaded) ==>
            var r := RealPath(path, host.ids, host.abs);
            realPath == r.value && err == r.err)
    }

    /** setup: resolves the path on the first call only and returns the
        recorded error on every call. */
    method Setup(host: Host) returns (e: Option<Error>)
      requires Valid()
      modifies this
      ensures SetUp(host) && e == err && fsCalls == old(fsCalls)
    {
      if loaded {
        return err;
      }
      loaded := true;
      var r := RealPath(path, host.ids, host.abs);
      realPath, err := r.value, r.err;
      resolutions := resolutions + 1;
      if err.Some? {
        return err;
      }
      return err;
    }

    method Exists(host: Host) returns (r: Reply<bool>)
      requires Valid()
      modifies this
      ensures SetUp(host)
      ensures err.Some? ==> r == Reply(false, err) && fsCalls == old(fsCalls)
      ensures err.None? ==> r == ExistsAt(host.lstat(realPath)) && fsCalls == old(fsCalls) + 1
    {
      var e := Setup(host);
      if e.Some? {
        return Reply(false, e);
      }
      fsCalls := fsCalls + 1;
      r := ExistsAt(host.lstat(realPath));
    }

    method Contains(host: Host) returns (r: Reply<Option<Handle>>)
      requires Valid()
      modifies this
      ensures SetUp(host)
      ensures err.Some? ==> r == Reply(None, err) && fsCalls == old(fsCalls)
      ensures err.None? ==> r == ContainsAt(host.open(realPath)) && fsCalls == old(fsCalls) + 1
    {
      var e := Setup(host);
      if e.Some? {
        return Reply(None, e);
      }
      fsCalls := fsCalls + 1;
      r := ContainsAt(host.open(realPath));
    }

    method Mode(host: Host) returns (r: Reply<string>)
      requires Valid()
      modifies this
      ensures SetUp(host)
      ensures err.Some? ==> r == Reply("", err) && fsCalls == old(fsCalls)
      ensures err.None? ==> r == ModeAt(host.lstat(realPath)) && fsCalls == old(fsCalls) + 1
    {
      var e := Setup(host);
      if e.Some? {
        return Reply("", e);
      }
      fsCalls := fsCalls + 1;
      r := ModeAt(host.lstat(realPath));
    }

    method Size(host: Host) returns (r: Reply<int>)
      requires Valid()
      modifies this
      ensures SetUp(host)
      ensures err.Some? ==> r == Reply(0, err) && fsCalls == old(fsCalls)
      ensures err.None? ==> r == SizeAt(host.lstat(realPath)) && fsCalls == old(fsCalls) + 1
    {
      var e := Setup(host);
      if e.Some? {
        return Reply(0, e);
      }
      fsCalls := fsCalls + 1;
      r := SizeAt(host.lstat(realPath));
    }

    method Filetype(host: Host) returns (r: Reply<string>)
      requires Valid()
      modifies this
      ensures SetUp(host)
      ensures err.Some? ==> r == Reply("", err) && fsCalls == old(fsCalls)
      ensures err.None? ==> r == FiletypeAt(host.lstat(realPath)) && fsCalls == old(fsCalls) + 1
    {
      var e := Setup(host);
      if e.Some? {
        return Reply("", e);
      }
      fsCalls := fsCalls + 1;
      r := FiletypeAt(host.lstat(realPath));
    }

    method Owner(host: Host) returns (r: Reply<string>)
      requires Valid()
      modifies this
      ensures SetUp(host)
      ensures err.Some? ==> r == Reply("", err) && fsCalls == old(fsCalls)
      ensures err.None? ==>
                r == OwnerAt(host.lstat(realPath), host.ids, host.getent) && fsCalls == old(fsCalls) + 1
    {
      var e := Setup(host);
      if e.Some? {
        return Reply("", e);
      }
      fsCalls := fsCalls + 1;
      r := OwnerAt(host.lstat(realPath), host.ids, host.getent);
    }

    method Group(host: Host) returns (r: Reply<string>)
      requires Valid()
      modifies this
      ensures SetUp(host)
      ensures err.Some? ==> r == Reply("", err) && fsCalls == old(fsCalls)
      ensures err.None? ==>
                r == GroupAt(host.lstat(realPath), host.ids, host.getent) && fsCalls == old(fsCalls) + 1
    {
      var e := Setup(host);
      if e.Some? {
        return Reply("", e);
      }
      fsCalls := fsCalls + 1;
      r := GroupAt(host.lstat(realPath), host.ids, host.getent);
    }

    method LinkedTo(host: Host) returns (r: Reply<string>)
      requires Valid()
      modifies this
      ensures SetUp(host)
      ensures err.Some? ==> r == Reply("", err) && fsCalls == old(fsCalls)
      ensures err.None? ==> r == LinkedToAt(host.readlink(realPath)) && fsCalls == old(fsCalls) + 1
    {
      var e := Setup(host);
      if e.Some? {
        return Reply("", e);
      }
      fsCalls := fsCalls + 1;
      r := LinkedToAt(host.readlink(realPath));
    }

    method Md5(host: Host) returns (r: Reply<string>)
      requires Valid()
      modifies this
      ensures SetUp(host)
      ensures err.Some? ==> r == Reply("", err) && fsCalls == old(fsCalls)
      ensures err.None? ==>
                r == DigestAt(host.open(realPath), host.readAll, host.md5) && fsCalls == old(fsCalls) + 1
    {
      var e := Setup(host);
      if e.Some? {
        return Reply("", e);
      }
      fsCalls := fsCalls + 1;
      r := DigestAt(host.open(realPath), host.readAll, host.md5);
    }

    method Sha256(host: Host) returns (r: Reply<string>)
      requires Valid()
      modifies this
      ensures SetUp(host)
      ensures err.Some? ==> r == Reply("", err) && fsCalls == old(fsCalls)
      ensures err.None? ==>
                r == DigestAt(host.open(realPath), host.readAll, host.sha256) && fsCalls == old(fsCalls) + 1
    {
      var e := Setup(host);
      if e.Some? {
        return Reply("", e);
      }
      fsCalls := fsCalls + 1;
      r := DigestAt(host.open(realPath), host.readAll, host.sha256);
    }
  }

  /** A fresh entity queried twice, against two different hosts: the path
      is resolved with the first host's identity database and never again,
      and a resolution error is returned by both queries without any
      filesystem call. */
  method StickyResolution(path: string, first: Host, second: Host)
    returns (present: Reply<bool>, mode: Reply<string>, ghost fsCalls: nat)
    ensures var p := if HasPrefix(path, "~") then path else first.abs(path).value;
            var res := RealPath(p, first.ids, first.abs);
            && (res.err.Some? ==>
                  present == Reply(false, res.err) && mode == Reply("", res.err) && fsCalls == 0)
            && (res.err.None? ==>
                  && present == ExistsAt(first.lstat(res.value))
                  && mode == ModeAt(second.lstat(res.value))
                  && fsCalls == 2)
  {
    var f := new DefFile(path, first.abs);
    present := f.Exists(first);
    mode := f.Mode(second);
    fsCalls := f.fsCalls;
  }
}
