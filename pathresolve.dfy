/** Home-directory expansion of a file path (system/file.go, realPath). */
module PathResolve {
  import opened Base
  import opened GoStrings
  import opened Identity

  /** filepath.Abs: its (path, error) pair, which depends on the working
      directory and is an input to the model. */
  type AbsPath = string -> Reply<string>

  /** realPath: a path that does not start with '~' is returned as it is;
      otherwise its first '/'-separated segment, "~" or "~name", is replaced
      by the home directory of the current user or of user `name`, and the
      rejoined path is made absolute. */
  function RealPath(path: string, db: IdentityDb, abs: AbsPath): (r: Reply<string>)
    ensures !HasPrefix(path, "~") ==> r == Reply(path, None)
    ensures HasPrefix(path, "~") && Split(path, '/')[0] == "~" && db.currentUser.Err? ==>
              r == Reply("", Some(db.currentUser.error))
  {
    if !HasPrefix(path, "~") then Reply(path, None)
    else
      var segs := Split(path, '/');
      var first := segs[0];
      assert |first| >= 1 by {
        assert path[0] == '~';
      }
      var usr := if first == "~" then db.currentUser else db.lookupUser(first[1..]);
      match usr
      case Err(e) => Reply("", Some(e))
      case Ok(u) => abs(Join(segs[0 := u.home], '/'))
  }

  /** The user a '~' path names: the text between '~' and the first '/';
      an empty name means the current user. */
  function HomeOwner(path: string, db: IdentityDb): Result<User>
    requires HasPrefix(path, "~")
  {
    var e := FieldEnd(path, '/');
    assert 1 <= e by {
      assert path[0] == '~';
    }
    var name := path[1..e];
    if name == "" then db.currentUser else db.lookupUser(name)
  }

  /** Expansion without splitting: the home directory takes the place of
      everything before the first '/', and the rest of the path follows
      unchanged, segments in their order; a failed user lookup gives the
      empty path and the lookup's error without consulting `abs`. */
  lemma {:induction false} RealPathSplicesHome(path: string, db: IdentityDb, abs: AbsPath)
    requires HasPrefix(path, "~")
    ensures RealPath(path, db, abs) ==
              match HomeOwner(path, db)
              case Err(e) => Reply("", Some(e))
              case Ok(u) => abs(u.home + path[FieldEnd(path, '/')..])
  {
    var segs := Split(path, '/');
    var e := FieldEnd(path, '/');
    assert segs[0] == path[..e];
    assert path[0] == '~';
    assert segs[0] == "~" <==> path[1..e] == "";
    assert segs[0][1..] == path[1..e];
    match HomeOwner(path, db)
    case Err(_) =>
    case Ok(u) => JoinReplaceFirst(path, '/', u.home);
  }

  /** A path that does not start with '~' comes back unchanged, with no error. */
  lemma RealPathPassesThrough(path: string, db: IdentityDb, abs: AbsPath)
    requires !HasPrefix(path, "~")
    ensures RealPath(path, db, abs) == Reply(path, None)
  {
  }

  /** "~" + rest, with rest empty or starting at a '/', expands to the
      current user's home followed by rest. */
  lemma RealPathCurrentUser(rest: string, db: IdentityDb, abs: AbsPath)
    requires rest == [] || rest[0] == '/'
    ensures RealPath("~" + rest, db, abs) ==
              match db.currentUser
              case Err(e) => Reply("", Some(e))
              case Ok(u) => abs(u.home + rest)
  {
    var path := "~" + rest;
    assert HasPrefix(path, "~");
    assert FieldEnd(path, '/') == 1 by {
      if rest != [] { assert path[1] == '/'; }
    }
    assert path[1..1] == "";
    assert path[1..] == rest;
    RealPathSplicesHome(path, db, abs);
  }

  /** "~name" + rest, with a non-empty name without '/' and rest empty or
      starting at a '/', expands to the home of user `name` followed by rest. */
  lemma RealPathNamedUser(name: string, rest: string, db: IdentityDb, abs: AbsPath)
    requires name != "" && '/' !in name
    requires rest == [] || rest[0] == '/'
    ensures RealPath("~" + name + rest, db, abs) ==
              match db.lookupUser(name)
              case Err(e) => Reply("", Some(e))
              case Ok(u) => abs(u.home + rest)
  {
    var path := "~" + name + rest;
    var n := |name| + 1;
    assert HasPrefix(path, "~");
    assert path[1..n] == name;
    assert '/' !in path[..n] by {
      assert path[..n] == "~" + name;
    }
    assert FieldEnd(path, '/') == n by {
      if rest != [] { assert path[n] == '/'; }
    }
    assert path[n..] == rest;
    RealPathSplicesHome(path, db, abs);
  }
}
