# File and service inspection in goss, modelled in Dafny

goss validates a host against declared expectations. Its `system` package
answers point queries about one file path or one systemd service. This
project models the decision logic of two files of that package:

- `system/file.go`: the `DefFile` entity. It resolves a `~` or `~name`
  path once, on first use, keeps the outcome, and replays a resolution error
  on every later query. It also covers the queries built on the resolved
  path: existence, permission string, size, type label, owner, group, link
  target, contents and digests.
- `system/service_dbus.go`: the D-Bus-backed `ServiceDbus` entity, whose
  `Enabled` and `Running` read a unit property, strip the quotes and compare
  the text with `enabled` or `active`.

Every call into the host is an input to the model: `os.Lstat`, `os.Open`,
`os.Readlink`, reading a file, the identity database, the `getent` command,
`filepath.Abs`, the digests and D-Bus `GetUnitProperty`. These are the
`Host`, `IdentityDb`, `Getent`, `AbsPath` and `PropertyQuery` values.
A query receives the host's answers of the moment it runs. So one `DefFile`
queried twice may see two different hosts.

Modules, one file each:

| file | module | covers |
|---|---|---|
| base.dfy | `Base` | Go `(value, error)` pairs (`Reply`), host results (`Result`), errors, bytes |
| gostrings.dfy | `GoStrings` | `strings.HasPrefix`, `Split`, `Join`, `Trim` for one separator character |
| fmt.dfy | `Fmt` | `%04o` and `%x` formatting, with the readers that invert them |
| filemode.dfy | `FileMode` | `os.FileMode` type bits, the `Filetype` switch, the permission string |
| identity.dfy | `Identity` | `getUserForUid`, `getGroupForGid` |
| pathresolve.dfy | `PathResolve` | `realPath` |
| filequery.dfy | `FileQuery` | the host interface, and what each query computes after `setup` |
| deffile.dfy | `File` | class `DefFile`: `NewDefFile`, `setup` and the eleven query methods |
| servicedbus.dfy | `DbusService` | `ServiceDbus`, `Service`, `Enabled`, `Running` |

`DefFile` is a class because `setup` writes `loaded`, `realPath` and `err`
in place. Two ghost counters sit beside those fields. `resolutions` counts
evaluations of `realPath`. `fsCalls` counts the Lstat, Open or Readlink
calls a query makes. The
invariant `Valid()` ties `resolutions` to `loaded`, so it is never above 1.
Every query method states two things. First, a recorded resolution error
comes back unchanged, with the zero value and no filesystem call. Second,
otherwise the result is the matching `FileQuery` function of the host's
answer for `realPath`, after exactly one Lstat, Open or Readlink.

`ServiceDbus` is a datatype. The source never writes its fields after
construction, so `Enabled` and `Running` cannot change `service`,
`enabled`, `running` or `dbus`.

Four details of the code that a reader might not expect, all modelled as
written:

- `Exists` returns `(true, err)` for an Lstat failure other than a missing
  path (system/file.go:69-73).
- `realPath` returns a path without `~` unchanged (system/file.go:198-200).
  `NewDefFile` has already made such a path absolute, and it drops the error
  of `filepath.Abs` (system/file.go:41-44).
- In the uid/gid fallback, only a failing `getent` run is an error. Output
  that succeeds but is empty gives the name `""` with no error
  (system/file.go:268-273, 282-287).
- `getGroupForGid`'s error message says "passwd file"
  (system/file.go:283).

## Model

| member | source | states |
|---|---|---|
| File.DefFile.constructor | system/file.go:40-46 | a path not starting with `~` is stored as the string part of `filepath.Abs`, with its error dropped; a `~` path is stored as given; nothing is resolved yet and no filesystem call has been made |
| File.DefFile.Setup | system/file.go:48-58 | the first call records realPath's pair (path and error) and sets `loaded`; a later call changes nothing and returns the recorded error; realPath is evaluated at most once per entity |
| File.DefFile.Exists | system/file.go:64-74 | a recorded resolution error gives `(false, err)` with no filesystem call; otherwise one Lstat, with the outcome of `FileQuery.ExistsAt` |
| File.DefFile.Contains | system/file.go:76-86 | resolution error gives `(nil, err)`; otherwise one Open, returning the handle or the Open error |
| File.DefFile.Mode | system/file.go:88-102 | resolution error gives `("", err)` with no filesystem call; otherwise one Lstat, then the permission string or the Lstat error |
| File.DefFile.Size | system/file.go:104-116 | resolution error gives `(0, err)`; otherwise one Lstat, then the size or the Lstat error |
| File.DefFile.Filetype | system/file.go:118-147 | resolution error gives `("", err)`; otherwise one Lstat, then the type label or the Lstat error |
| File.DefFile.Owner | system/file.go:149-165 | resolution error gives `("", err)`; otherwise one Lstat, then the uid's name with the getent fallback |
| File.DefFile.Group | system/file.go:167-183 | resolution error gives `("", err)`; otherwise one Lstat, then the gid's name with the getent fallback |
| File.DefFile.LinkedTo | system/file.go:185-195 | resolution error gives `("", err)`; otherwise one Readlink, returning the target or the Readlink error |
| File.DefFile.Md5 | system/file.go:222-240 | resolution error gives `("", err)`; otherwise one Open; an Open or read error is returned with `""`; otherwise the hex of the MD5 digest of the content |
| File.DefFile.Sha256 | system/file.go:242-260 | as Md5, with the SHA-256 digest |
| File.DefFile.Path | system/file.go:60-62 | returns the stored path, the one `NewDefFile` kept, not the resolved one |
| File.StickyResolution | system/file.go:48-102 | a new entity queried with Exists and then Mode resolves with the first host only; on a resolution error both queries return that same error with their zero values and make no filesystem call; otherwise both queries use the one resolved path |
| PathResolve.RealPath | system/file.go:197-220 | a path not starting with `~` comes back as it is, with no error; a path whose first segment is exactly `~` gives `("", err)` when CurrentUser fails |
| PathResolve.RealPathSplicesHome | system/file.go:201-219 | for a `~` path, the home of the user named between `~` and the first `/` (the current user when that name is empty) replaces that first segment; the rest of the path follows unchanged, in order, and the result goes through Abs; a failed lookup gives `("", err)` and Abs is not consulted |
| PathResolve.RealPathPassesThrough | system/file.go:198-200 | a path not starting with `~` comes back unchanged, with no error |
| PathResolve.RealPathCurrentUser | system/file.go:206-219 | `~` + rest, where rest is empty or starts with `/`, gives Abs(current home + rest), or `("", err)` when CurrentUser fails |
| PathResolve.RealPathNamedUser | system/file.go:208-219 | `~name` + rest gives Abs(home of name + rest), or `("", err)` when LookupUser fails |
| GoStrings.HasPrefix | system/file.go:41 | the `~` test of `NewDefFile` and `realPath` (also line 198): true exactly when the text is the prefix followed by the rest of the text |
| GoStrings.Split | system/file.go:201 | at least one piece; the first piece is the text before the first separator; no piece contains the separator |
| GoStrings.Join | system/file.go:216 | the first piece comes first, followed by the separator when there is a second piece; GoStrings.JoinSplit states that joining a split gives back the text |
| GoStrings.JoinSplit | system/file.go:201-216 | joining the pieces of a split gives back the original text |
| GoStrings.JoinReplaceFirst | system/file.go:214-216 | replacing piece 0 and rejoining puts the new text in front of everything from the first separator on |
| GoStrings.Trim | system/service_dbus.go:33 | the result neither starts nor ends with the cut character, and the input is the result with some number of that character on each side |
| GoStrings.TrimWrapped | system/service_dbus.go:33 | any text that does not start or end with `"`, wrapped in any number of `"` on each side, trims back to that text |
| GoStrings.TrimEqualsIff | system/service_dbus.go:33-35 | the trimmed text equals such a text exactly when the input is that text wrapped in quotes |
| GoStrings.TrimIdempotent | system/service_dbus.go:33 | trimming twice is trimming once |
| Fmt.OctalDigits | system/file.go:100 | `%o` digits are octal, at least one, and read back as the number |
| Fmt.OctalDigitsLength | system/file.go:100 | a number below 8^k prints in at most k octal digits |
| Fmt.ParseOctalLeadingZeros | system/file.go:100 | zero padding does not change the value read back |
| Fmt.PadLeft | system/file.go:100 | the `0` flag with width 4 pad on the left to the width and keep the digits |
| Fmt.Octal04 | system/file.go:100 | `%04o` gives at least four octal digits that read back as the number; Fmt.Octal04RoundTrip pins the length to exactly four below 0o10000 |
| Fmt.Octal04RoundTrip | system/file.go:100 | for a value below 0o10000, `%04o` gives exactly four octal digits that read back as the value |
| Fmt.HexEncode | system/file.go:239 | `%x` of a byte string has two lower-case hex digits per byte |
| Fmt.HexRoundTrip | system/file.go:239 | decoding the `%x` string gives back the digest bytes |
| FileMode.IsDir | system/file.go:140 | true exactly when the directory bit is set |
| FileMode.IsRegular | system/file.go:142 | true exactly when none of the seven type bits (directory, symlink, named pipe, socket, device, character device, irregular) is set |
| FileMode.Filetype | system/file.go:128-146 | the label is one of the seven labels, and `symlink` whenever the symlink bit is set |
| FileMode.PermissionString | system/file.go:100 | the permission string has exactly four characters, all octal digits |
| FileMode.FiletypeClassification | system/file.go:128-146 | each mode gets exactly one of the seven labels; symlink beats every other bit, then device (character or block), named pipe, socket, directory; a mode with none of those bits is a `file`, including combinations no case matches |
| FileMode.PermissionBits | system/file.go:100 | `st_mode & 07777` is below 0o10000 |
| FileMode.PermissionStringRoundTrip | system/file.go:100 | the permission string has four octal digits and reads back as `st_mode & 07777` |
| FileMode.PermissionStringIgnoresTypeBits | system/file.go:100 | bits above 07777 never affect the permission string |
| Base.IsNotExist | system/file.go:70 | a not-exist error is recognised; any other error, including one wrapped with `fmt.Errorf`, is not |
| FileQuery.ExistsAt | system/file.go:69-73 | a `false` answer carries no error; an error comes only from a failed Lstat, and it is Lstat's error |
| FileQuery.ContainsAt | system/file.go:81-85 | a handle comes back exactly when there is no error; an Open error is returned as it is; a successful Open returns its handle |
| FileQuery.ModeAt | system/file.go:93-101 | a failed Lstat gives `("", err)`; a successful one gives no error and four octal digits |
| FileQuery.SizeAt | system/file.go:109-115 | a failed Lstat gives `(0, err)`; a successful one gives the size with no error |
| FileQuery.FiletypeAt | system/file.go:123-146 | a failed Lstat gives `("", err)`; a successful one gives no error and one of the seven labels |
| FileQuery.OwnerAt | system/file.go:154-164 | a failed Lstat gives `("", err)`; a successful one whose uid the database knows gives that user's name with no error |
| FileQuery.GroupAt | system/file.go:172-182 | a failed Lstat gives `("", err)`; a successful one whose gid the database knows gives that group's name with no error |
| FileQuery.LinkedToAt | system/file.go:190-194 | a failed Readlink gives `("", err)`; a successful one gives the target with no error |
| FileQuery.DigestAt | system/file.go:228-239 | an error always comes with `""`; there is no error exactly when both Open and the read succeed, and then the text has two characters per digest byte |
| FileQuery.ExistsOutcomes | system/file.go:69-73 | `(false, nil)` exactly when Lstat reports a missing path; `(true, nil)` exactly when Lstat succeeds; any other Lstat error is returned as it is |
| FileQuery.QueryErrorsPropagate | system/file.go:93-195 | an Lstat, Readlink or Open error is returned as it is, with the query's zero value |
| FileQuery.ModeAtFormat | system/file.go:93-101 | after a successful Lstat, Mode returns no error and four octal digits that read back as `st_mode & 07777` |
| FileQuery.FiletypeAtTotal | system/file.go:123-146 | after a successful Lstat, Filetype returns no error and one of the seven labels |
| FileQuery.DigestAtContent | system/file.go:228-239 | a read error is returned with `""`; otherwise the error is nil and the digest string depends only on the content, has two hex digits per digest byte, and decodes back to the digest |
| Identity.UserForUid | system/file.go:262-274 | a database hit gives its name with no error; an error comes only when both the database and `getent passwd` fail, and then the name is `""` |
| Identity.GroupForGid | system/file.go:276-288 | a database hit gives its name with no error; an error comes only when both the database and `getent group` fail, and then the name is `""` |
| Identity.FirstField | system/file.go:271 | the name is the prefix of the getent output before the first `:`, or all of it when there is no `:` |
| Identity.UserForUidPrefersDatabase | system/file.go:263-265 | when LookupUid succeeds, its name is returned without error, whatever getent would have said |
| Identity.UserForUidFallback | system/file.go:267-273 | on a database miss, a successful getent gives the first field of its output; a failed one gives `""` and an error wrapping getent's error |
| Identity.UserForUidFailsOnlyWhenBothFail | system/file.go:262-274 | the result is an error exactly when both the database lookup and getent fail, and then the name is `""` |
| Identity.GroupForGidPrefersDatabase | system/file.go:277-279 | when LookupGid succeeds, its name is returned without error, whatever getent would have said |
| Identity.GroupForGidFallback | system/file.go:281-287 | on a database miss, a successful `getent group` gives the first field of its output; a failed one gives `""` and a wrapped error |
| Identity.GroupForGidFailsOnlyWhenBothFail | system/file.go:276-288 | the result is an error exactly when both the database lookup and getent fail, and then the name is `""` |
| DbusService.NewServiceDbus | system/service_dbus.go:16-25 | the entity keeps the name it was given, which `Service` returns, and the borrowed connection |
| DbusService.Service | system/service_dbus.go:23-25 | returns the name the entity was created with |
| DbusService.UnitName | system/service_dbus.go:28 | the unit name `Enabled` and `Running` query (also line 43) is the service name followed by `.service` |
| DbusService.StateIs | system/service_dbus.go:28-39 | a failed property query gives `(false, err)`; a successful one gives no error, and, for an expected text that neither starts nor ends with `"`, true exactly when the value is that text wrapped in any number of `"` |
| DbusService.Enabled | system/service_dbus.go:27-40 | a `true` answer carries no error, and an error always comes with `false` |
| DbusService.Running | system/service_dbus.go:42-55 | a `true` answer carries no error, and an error always comes with `false` |
| DbusService.EnabledSpec | system/service_dbus.go:27-40 | queries UnitFileState of `<service>.service`; a failed query gives `(false, err)`; otherwise no error, and true exactly when the value is `enabled` wrapped in any number of `"` |
| DbusService.RunningSpec | system/service_dbus.go:42-55 | queries ActiveState of `<service>.service`; a failed query gives `(false, err)`; otherwise no error, and true exactly when the value is `active` wrapped in any number of `"` |
| DbusService.EnabledQuoted | system/service_dbus.go:32-36 | `enabled` with any number of `"` on either side is enabled |

## Left out

- Concurrent first use of one `DefFile` from several threads. The source does not synchronise it, so a sequential model is the whole contract.
- The MD5 and SHA-256 algorithms. They are inputs (`Host.md5`, `Host.sha256`). Only their hex rendering and the handling of open and read errors are modelled.
- Streaming with `io.Copy` and closing the handle (`defer fh.Close()`). Reading the whole file is one host answer.
- The reader `Contains` returns. It is an opaque handle, and the caller owns it.
- `filepath.Abs`'s normalisation against the working directory. It is an input (`AbsPath`).
- Running `getent`. Only its outcome for a database and an id is an input; formatting the id with `strconv.Itoa` belongs to that input.
- The `Stat_t` type assertion and the `fmt.Sprint`/`strconv.Atoi` round trip of uid and gid. The model reads the id as a number, so the `Atoi` error branch (system/file.go:160-163, 178-181) cannot arise in it.
- `int(size)`. The model takes the size as an unbounded integer, the same as a 64-bit `int`.
- The D-Bus connection's lifecycle and the rendering of `dbus.Variant` as text. The property's text is the input.
- The `File` and `Service` interfaces, and service backends other than D-Bus. These lie outside the two files.
- The unused `fi` field of `DefFile`. No code in the two files reads or writes it.
- `os.ModeType` is taken as in current Go. The choice does not matter: the `IsRegular` case and the default both return `file`.
