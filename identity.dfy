/** Users and groups as the identity database reports them, and the
    uid/gid-to-name resolution with its `getent` fallback
    (system/file.go, getUserForUid and getGroupForGid). */
module Identity {
  import opened Base
  import opened GoStrings

  datatype User = User(name: string, uid: int, gid: int, home: string)

  datatype Group = Group(name: string, gid: int)

  /** The answers of the in-process identity database, one field per lookup
      the package makes. */
  datatype IdentityDb = IdentityDb(
    currentUser: Result<User>,            // user.CurrentUser()
    lookupUser: string -> Result<User>,   // user.LookupUser(name)
    lookupUid: int -> Result<User>,       // user.LookupUid(uid)
    lookupGid: int -> Result<Group>)      // user.LookupGid(gid)

  /** Running `getent <database> <id>`: its standard output when the command
      succeeds, the error `Run` reports otherwise. */
  type Getent = (string, int) -> Result<string>

  const PasswdMiss := "Error: no matching entries in passwd file. getent passwd: "
  const GroupMiss := "Error: no matching entries in passwd file. getent group: "

  /** The text before the first ':' of the command output
      (`strings.Split(out, ":")[0]`): the whole output when it has no ':'. */
  function FirstField(out: string): (name: string)
    ensures ':' !in name && name <= out
    ensures |name| < |out| ==> out[|name|] == ':'
  {
    Split(out, ':')[0]
  }

  /** The name of the user with id `uid`: the database's answer if it has
      one, and otherwise the first field of `getent passwd <uid>`. */
  function UserForUid(uid: int, db: IdentityDb, getent: Getent): (r: Reply<string>)
    ensures db.lookupUid(uid).Ok? ==> r == Reply(db.lookupUid(uid).value.name, None)
    ensures r.err.Some? ==> r.value == "" && db.lookupUid(uid).Err? && getent("passwd", uid).Err?
  {
    match db.lookupUid(uid)
    case Ok(u) => Reply(u.name, None)
    case Err(_) =>
      match getent("passwd", uid)
      case Err(e) => Reply("", Some(Wrapped(PasswdMiss, e)))
      case Ok(out) => Reply(FirstField(out), None)
  }

  /** The name of the group with id `gid`, with the same fallback to
      `getent group <gid>`. */
  function GroupForGid(gid: int, db: IdentityDb, getent: Getent): (r: Reply<string>)
    ensures db.lookupGid(gid).Ok? ==> r == Reply(db.lookupGid(gid).value.name, None)
    ensures r.err.Some? ==> r.value == "" && db.lookupGid(gid).Err? && getent("group", gid).Err?
  {
    match db.lookupGid(gid)
    case Ok(g) => Reply(g.name, None)
    case Err(_) =>
      match getent("group", gid)
      case Err(e) => Reply("", Some(Wrapped(GroupMiss, e)))
      case Ok(out) => Reply(FirstField(out), None)
  }

  /** A database hit gives the database's name, whatever the command would
      have said: the command is never consulted. */
  lemma UserForUidPrefersDatabase(uid: int, db: IdentityDb, g1: Getent, g2: Getent)
    requires db.lookupUid(uid).Ok?
    ensures UserForUid(uid, db, g1) == UserForUid(uid, db, g2) == Reply(db.lookupUid(uid).value.name, None)
  {
  }

  /** On a database miss the answer is the first field of `getent passwd
      <uid>` if the command succeeds, and the empty name with an error
      wrapping the command's error if it fails. */
  lemma UserForUidFallback(uid: int, db: IdentityDb, getent: Getent)
    requires db.lookupUid(uid).Err?
    ensures var out := getent("passwd", uid);
            var r := UserForUid(uid, db, getent);
            && (out.Ok? ==> r.err == None && ':' !in r.value && r.value <= out.value
                            && (|r.value| < |out.value| ==> out.value[|r.value|] == ':'))
            && (out.Err? ==> r == Reply("", Some(Wrapped(PasswdMiss, out.error))))
  {
  }

  /** The resolution fails only when both the database and the command fail. */
  lemma UserForUidFailsOnlyWhenBothFail(uid: int, db: IdentityDb, getent: Getent)
    ensures UserForUid(uid, db, getent).err.Some? <==>
              db.lookupUid(uid).Err? && getent("passwd", uid).Err?
    ensures UserForUid(uid, db, getent).err.Some? ==> UserForUid(uid, db, getent).value == ""
  {
  }

  lemma GroupForGidPrefersDatabase(gid: int, db: IdentityDb, g1: Getent, g2: Getent)
    requires db.lookupGid(gid).Ok?
    ensures GroupForGid(gid, db, g1) == GroupForGid(gid, db, g2) == Reply(db.lookupGid(gid).value.name, None)
  {
  }

  lemma GroupForGidFallback(gid: int, db: IdentityDb, getent: Getent)
    requires db.lookupGid(gid).Err?
    ensures var out := getent("group", gid);
            var r := GroupForGid(gid, db, getent);
            && (out.Ok? ==> r.err == None && ':' !in r.value && r.value <= out.value
                            && (|r.value| < |out.value| ==> out.value[|r.value|] == ':'))
            && (out.Err? ==> r == Reply("", Some(Wrapped(GroupMiss, out.error))))
  {
  }

  lemma GroupForGidFailsOnlyWhenBothFail(gid: int, db: IdentityDb, getent: Getent)
    ensures GroupForGid(gid, db, getent).err.Some? <==>
              db.lookupGid(gid).Err? && getent("group", gid).Err?
    ensures GroupForGid(gid, db, getent).err.Some? ==> GroupForGid(gid, db, getent).value == ""
  {
  }
}
