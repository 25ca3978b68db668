# docker2artifactory: image-set resolution, run checks and UCP listing accumulators

This project models, in Dafny, the sequential core of the docker2artifactory
migrator, a tool that copies Docker images (repository + tag) from a source
registry (a generic V2 registry, Quay SaaS or Quay Enterprise) into an
Artifactory Docker repository.

Two parts are modelled:

- **DockerMigrator.py**: how the three sub-commands (`generic`, `quay`,
  `quayee`) check their parsed arguments, rewrite a Quay token into a login,
  and fill the FIFO work queue of `(name, tag)` items, either from an image
  file (`parse_image_file`: pinned `name:tag` lines first, then every tag of
  each bare name) or from the source's catalog (`populate_tags`). A run
  ends as `Rejected(error)`, `NothingToMigrate`, or
  `Migrate(work, login, workers)` — the point where the source hands the
  queue to the worker pool.
- **migrator/UCPAccess.py**: the three page handlers that the paginated
  listing calls once per page, each appending to the caller's result list in
  place, and `get_users`, which keeps the users the UCP knows and remembers
  its input in the `artifactory_users` field.

Files: `wrappers.dfy` (Option), `text.dfy` (Python 2 `str.strip()`,
`str.split(sep)` and its inverse `join`), `image_file.dfy`
(`parse_image_file`), `tag_queue.dfy` (the queue and `populate_tags`),
`docker_migrator.dfy` (constants, `Args`, checks, the three sub-commands),
`ucp_access.dfy` (handlers, `get_users`).

Modelling choices:

- The image file is given as the lines `readlines()` returns, with their
  terminators, or as `None` when opening or reading raises. `strip()` removes
  the six ASCII whitespace bytes of Python 2's `str.isspace`.
- `name, tag = line.split(':')` raises unless the split gives exactly two
  pieces, that is unless the stripped line holds exactly one `:`. The model
  classifies such a line as `Unpackable`, and any such line turns the whole
  result into `([], [])`, as the `except` clause does.
- The source's `get_tags` answer is a map from repository name to tag list.
  A name missing from the map stands for `None`. The catalog is a sequence,
  and an empty one stands for `None` too.
- `get_users` calls `self.userExists`, which migrator/UCPAccess.py does not
  define; here it is a predicate parameter of `GetUsers`.
- The mutable state is kept where the source keeps it:
  - the work queue is a class with a `seq` field;
  - the argparse namespace is a class whose credential fields `quayee`
    rewrites;
  - the handlers' result list is a class with a `seq` field;
  - `UCPAccess` holds the `artifactoryUsers` field.

Behaviour of the code worth knowing:

- `quay_migration` runs none of the checks that `generic_migration` and
  `quay_ee_migration` run (DockerMigrator.py:138-141, 268-273), so a worker
  count outside [1, 16] reaches the worker pool (`QuayWorkersUnchecked`).
- The whole parse of the image file fails not only when the file cannot be
  read but also on any line with two or more `:` (`UnpackFailureCollapses`).
- `perform_migration` reports skipped and failed images, but prints no
  migrated count; that reporting is not modelled.

## Model

| member | source | states |
|---|---|---|
| Text.StripShape | DockerMigrator.py:119 | `strip()` leaves a middle part of the line, with only whitespace before and after it; the part neither starts nor ends with whitespace |
| Text.StripEmpty | DockerMigrator.py:119 | a line strips to the empty string exactly when it is all whitespace |
| Text.StripIdempotent | DockerMigrator.py:119 | stripping a stripped line changes nothing |
| Text.SplitCount | DockerMigrator.py:121 | `split(':')` gives one more piece than the line has `:` |
| Text.SplitPiecesFree | DockerMigrator.py:121 | no piece of `split(':')` holds a `:` |
| Text.JoinSplit | DockerMigrator.py:121 | joining the pieces of a split with the separator gives back the line |
| Text.SplitJoin | DockerMigrator.py:121 | splitting a join of separator-free pieces gives back the pieces |
| ImageFile.ParseImageFile | DockerMigrator.py:112-129 | the loop returns the bare names and pinned pairs of the file in file order, and `([], [])` when reading fails or some line cannot be unpacked |
| ImageFile.ClassifyPin | DockerMigrator.py:119-123 | a line gives the pair `(n, t)` exactly when, stripped, it is `n:t` with `n` and `t` non-empty and free of `:` |
| ImageFile.ClassifyBare | DockerMigrator.py:124-125 | a line gives a bare name exactly when, stripped, it is non-empty and free of `:`; the name is the stripped line verbatim |
| ImageFile.ClassifyNothing | DockerMigrator.py:119-125 | a line gives nothing (and does not spoil the parse) exactly when it is all whitespace or has one `:` with an empty half |
| ImageFile.ClassifyUnpackable | DockerMigrator.py:121 | a line makes the unpack raise exactly when, stripped, it holds two or more `:` |
| ImageFile.UnpackFailureCollapses | DockerMigrator.py:121-129 | one line with two or more `:` anywhere makes the whole result `([], [])`, even after valid lines |
| ImageFile.LineContribution | DockerMigrator.py:118-125 | each line adds its own contribution between those of the lines before and after it, and adds to at most one list |
| ImageFile.PinnedRefsAppend | DockerMigrator.py:118-123 | the pinned pairs of two runs of lines are those of the first run followed by those of the second |
| ImageFile.BareNamesAppend | DockerMigrator.py:118-125 | the bare names of two runs of lines are those of the first run followed by those of the second |
| ImageFile.PinnedRefsMember | DockerMigrator.py:120-123 | a pair is in the list the classified lines accumulate exactly when some line is classified as that pair |
| ImageFile.BareNamesMember | DockerMigrator.py:124-125 | a name is in the list the classified lines accumulate exactly when some line is classified as that bare name |
| ImageFile.ParsedPinMember | DockerMigrator.py:118-126 | when no line holds two or more `:`, the pairs returned are those the lines accumulate, and a pair is returned exactly when some line of the file gives it |
| ImageFile.ParsedBareMember | DockerMigrator.py:118-126 | when no line holds two or more `:`, the bare names returned are those the lines accumulate, and a name is returned as a bare name exactly when some line of the file gives it |
| ImageFile.NoUnpackable | DockerMigrator.py:121 | lines with at most one `:` each never make the unpack raise |
| ImageFile.DocumentedExample | DockerMigrator.py:98-111 | the example in the function's comment: `image_name2,` keeps its comma, and the two `name:tag` lines become pairs |
| TagQueue.WorkQueue.constructor | DockerMigrator.py:152 | a new queue is empty |
| TagQueue.WorkQueue.PutNowait | DockerMigrator.py:158 | `put_nowait` adds the item at the back and changes nothing else |
| TagQueue.PopulateTags | DockerMigrator.py:201-210 | the queue becomes its old contents followed by one item per tag, name by name and tag by tag |
| TagQueue.ExpandAppend | DockerMigrator.py:203-210 | expanding two runs of names gives the two expansions one after the other |
| TagQueue.ExpandLength | DockerMigrator.py:201-210 | the queue grows by exactly the sum of the tag-list lengths |
| TagQueue.ExpandMember | DockerMigrator.py:201-210 | an item is queued exactly when its name is among the names and its tag among that name's tags |
| TagQueue.ExpandSkipsUntagged | DockerMigrator.py:205-206 | a name whose tag list is empty or `None` adds nothing and leaves the other items in order |
| DockerMigrator.ResolveWork | DockerMigrator.py:151-167 | returns the queue it filled, which holds the file's pinned pairs and then the expansion of its bare names, or the expansion of the catalog when no file is given |
| DockerMigrator.GenericMigration | DockerMigrator.py:136-172 | refuses unpaired credentials, then a worker count outside [1, 16]; otherwise migrates the planned queue with the given login if it is non-empty, and otherwise reports nothing to migrate |
| DockerMigrator.QuayMigration | DockerMigrator.py:239-264 | migrates the planned queue as user `$oauthtoken` with the token as password if the queue is non-empty, and runs no argument checks |
| DockerMigrator.QuayEeMigration | DockerMigrator.py:266-278 | refuses unpaired credentials, token together with username, and neither; rewrites a token into user `$oauthtoken` with the token as password; then runs the generic migration on the rewritten arguments |
| DockerMigrator.WorkerBounds | DockerMigrator.py:25-27 | with paired credentials, a generic run with 0 or 17 workers is stopped with the worker-range error, and one with 1, 16 or the default 2 is not stopped |
| DockerMigrator.GenericRejects | DockerMigrator.py:138-141 | a generic run is stopped exactly when credentials are unpaired or the worker count is outside [1, 16], with the credential error taking precedence |
| DockerMigrator.GenericMigrates | DockerMigrator.py:138-172 | a generic run migrates exactly when credentials are paired, the worker count is in [1, 16] and the queue is non-empty; it then migrates the planned queue |
| DockerMigrator.QuayWorkersUnchecked | DockerMigrator.py:239-264 | a quay run with a non-empty queue migrates whatever the worker count |
| DockerMigrator.QuayNothingToMigrate | DockerMigrator.py:260-264 | a quay run reports nothing to migrate exactly when the planned queue is empty, and is never stopped by a check |
| DockerMigrator.QuayEeLoginComplete | DockerMigrator.py:268-277 | once the quayee checks pass, the login has both user and password: `$oauthtoken` and the token, or the given pair |
| DockerMigrator.QuayEeRejects | DockerMigrator.py:268-278 | a quayee run is refused exactly when credentials are unpaired, token and username are both given, neither is given, or the worker count is outside [1, 16] |
| DockerMigrator.FileModeOrder | DockerMigrator.py:155-167 | with an image file every pinned pair precedes every expanded item, and the queue size is the number of pairs plus the tags of the bare names |
| DockerMigrator.DiscoveryModeWork | DockerMigrator.py:159-167 | without an image file the queue holds one item per catalog tag, and exactly those items |
| DockerMigrator.EndToEndExample | DockerMigrator.py:155-170 | the file `foo:latest` / `bar`, with `bar` tagged `v1`, `v2`, migrates (foo, latest), (bar, v1), (bar, v2) in that order |
| UCPAccess.UCPAccess.constructor | migrator/UCPAccess.py:12-15 | a new accessor has an empty `artifactory_users` list |
| UCPAccess.UCPAccess.OrganizationsPageHandler | migrator/UCPAccess.py:30-33 | the result becomes its old contents followed by the names of the page's organization accounts, in page order |
| UCPAccess.UCPAccess.TeamsPageHandler | migrator/UCPAccess.py:56-58 | the result becomes its old contents followed by the names of the page's teams, in page order |
| UCPAccess.UCPAccess.MembersPageHandler | migrator/UCPAccess.py:69-71 | the result becomes its old contents followed by the nested member names of the page, in page order |
| UCPAccess.UCPAccess.GetUsers | migrator/UCPAccess.py:39-46 | sets `artifactory_users` to the input and returns the input users that `userExists` accepts, in input order |
| UCPAccess.CollectAppend | migrator/UCPAccess.py:30-33 | handling two pages in turn appends what handling their concatenation appends; earlier results are never changed |
| UCPAccess.CollectPages | migrator/UCPAccess.py:27-28 | handling each page of a listing in page order gives the concatenation of the per-page outputs, which is what handling the whole listing at once gives |
| UCPAccess.OrganizationsMember | migrator/UCPAccess.py:30-33 | a name is collected exactly when some account of the page is an organization with that name |
| UCPAccess.TeamsPointwise | migrator/UCPAccess.py:56-58 | the teams handler appends exactly one name per team, the i-th being the i-th team's name |
| UCPAccess.MembersPointwise | migrator/UCPAccess.py:69-71 | the members handler appends exactly one name per member, the i-th being the i-th member's nested name |
| UCPAccess.KnownUsersMember | migrator/UCPAccess.py:41-46 | a user is returned exactly when it is in the input and `userExists` accepts it |
| UCPAccess.KnownUsersSubsequence | migrator/UCPAccess.py:41-46 | the returned users are a subsequence of the input: each sits at an input position, the positions increase, and every accepted position appears, so a repeated user is returned each time |

## Left out

- Argument parsing (`get_arg_parser`, `add_extra_args`, `add_art_access`): `Args` holds the parsed values; only the checks that follow parsing are modelled.
- `setup_art_access` and `verify_is_v2`, with `is_valid`, `is_valid_version` and `is_valid_docker_repo`: these are HTTP calls followed by `sys.exit`. The model's outcomes take them to succeed.
- `perform_migration` and `Migrator`: the threaded worker pool is not part of this model. A run ends at `Migrate(work, login, workers)`, and the printed skipped/failed report is not modelled.
- `setup_logging`, logging and printing, and the creation and removal of the work directory.
- Opening and reading the image file: the model takes the lines as given, and `None` for a failed open or read.
- `str()` on names and tags (DockerMigrator.py:204, 209) is the identity here. A Python 2 `str()` of a non-ASCII unicode name raises `UnicodeEncodeError`; that is not modelled.
- `get_catalog` and `get_tags` are inputs: the catalog as a sequence, the tags as a map.
- The taking side of the queue (`get`), used only by the worker pool.
- `test_connection`, and `get_organizations`, `get_teams` and `get_members` themselves: they call `get_with_pagination` and `get_call_wrapper`, which are not part of this model, and `urllib.quote`. The page handlers they pass are modelled, and `CollectPages` states what a page-by-page fold of a handler yields.
- `userExists` is a parameter of `GetUsers`, and the `log.info` call in `get_users` is not modelled.
- `UCPAccess.UCPAccess.constructor`: the URL, credential and certificate arguments passed to the base class are not modelled.
- Listing entries are records with exactly the fields the handlers read. A missing key, which raises `KeyError` in the source, is not modelled. `isOrg` is a boolean, so JSON values other than booleans are not modelled either.
