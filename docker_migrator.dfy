/**
 * The three sub-commands of DockerMigrator.py (`generic`, `quay`, `quayee`)
 * up to the point where they hand a filled work queue to the worker pool:
 * the checks on the parsed arguments, the rewrite of a Quay token into a
 * login, and the assembly of the queue from the image file or from the
 * source's catalog.
 */
module DockerMigrator {
  import opened Wrappers
  import opened ImageFile
  import opened TagQueue

  /** The default of `--num-of-workers`. */
  const NumOfWorkers := 2
  const MinNumOfWorkers := 1
  const MaxNumOfWorkers := 16

  /** The user name under which a Quay OAuth2 token is presented. */
  const OAuthTokenUser := "$oauthtoken"

  /** Python truthiness of an optional string argument: given and not empty. */
  predicate Given(o: Option<string>) {
    o.Some? && o.value != []
  }

  /** The reasons `parser.error` stops a run before any work is done. */
  datatype ConfigError =
    | CredentialsNotPaired   // exactly one of source username and password
    | WorkersOutOfRange      // worker count outside [1, 16]
    | TokenWithCredentials   // a token and a username together
    | NoCredentials          // neither a token nor a username

  /** The credentials the source registry is accessed with. */
  datatype Login = Login(username: Option<string>, password: Option<string>)

  /** How a sub-command ends: stopped by a check, "Nothing to migrate.", or a
      migration of `work` in queue order with `workers` worker threads. */
  datatype Outcome =
    | Rejected(error: ConfigError)
    | NothingToMigrate
    | Migrate(work: seq<ImageRef>, login: Login, workers: int)

  /** What the outside world answers: the readable files (path to the lines
      `readlines()` returns), the source's catalog, and its tag lists. */
  datatype Environment = Environment(
    files: map<string, seq<string>>,
    catalog: seq<string>,
    tags: map<string, seq<string>>)

  /** The parsed command line. `quay_ee_migration` rewrites its source
      credentials in place before handing it to `generic_migration`. */
  class Args {
    var sourceUsername: Option<string>
    var sourcePassword: Option<string>
    var token: Option<string>
    var workers: int
    var imageFile: Option<string>

    constructor (sourceUsername: Option<string>, sourcePassword: Option<string>,
                 token: Option<string>, workers: int, imageFile: Option<string>)
      ensures this.sourceUsername == sourceUsername && this.sourcePassword == sourcePassword
      ensures this.token == token && this.workers == workers && this.imageFile == imageFile
    {
      this.sourceUsername := sourceUsername;
      this.sourcePassword := sourcePassword;
      this.token := token;
      this.workers := workers;
      this.imageFile := imageFile;
    }
  }

  /** Opening and reading `path`: `None` when that raises. */
  function ReadLines(files: map<string, seq<string>>, path: string): Option<seq<string>> {
    if path in files then Some(files[path]) else None
  }

  /** The checks at the top of `generic_migration`, in their order. */
  function CheckGeneric(username: Option<string>, password: Option<string>, workers: int): Option<ConfigError> {
    if Given(username) != Given(password) then Some(CredentialsNotPaired)
    else if workers < MinNumOfWorkers || workers > MaxNumOfWorkers then Some(WorkersOutOfRange)
    else None
  }

  /** The checks at the top of `quay_ee_migration`, in their order. */
  function CheckQuayEe(username: Option<string>, password: Option<string>, token: Option<string>): Option<ConfigError> {
    if Given(username) != Given(password) then Some(CredentialsNotPaired)
    else if Given(token) && Given(username) then Some(TokenWithCredentials)
    else if !(Given(token) || Given(username)) then Some(NoCredentials)
    else None
  }

  /** The source login after `quay_ee_migration` has turned a token into
      user `$oauthtoken` with the token as password. */
  function TokenLogin(username: Option<string>, password: Option<string>, token: Option<string>): Login {
    if Given(token) then Login(Some(OAuthTokenUser), token) else Login(username, password)
  }

  /** The queue contents a sub-command builds: with an image file, its
      pinned pairs first and then the expansion of its bare names; without
      one, the expansion of the whole catalog. */
  function PlannedWork(imageFile: Option<string>, env: Environment): seq<ImageRef> {
    if Given(imageFile) then
      var parsed := Parse(ReadLines(env.files, imageFile.value));
      parsed.1 + Expand(parsed.0, env.tags)
    else
      Expand(env.catalog, env.tags)
  }

  /** The migration starts only when the queue is not empty. */
  function Launch(work: seq<ImageRef>, login: Login, workers: int): Outcome {
    if work == [] then NothingToMigrate else Migrate(work, login, workers)
  }

  function GenericOutcome(username: Option<string>, password: Option<string>, workers: int,
                          imageFile: Option<string>, env: Environment): Outcome {
    match CheckGeneric(username, password, workers)
    case Some(e) => Rejected(e)
    case None => Launch(PlannedWork(imageFile, env), Login(username, password), workers)
  }

  function QuayOutcome(token: Option<string>, workers: int, imageFile: Option<string>, env: Environment): Outcome {
    Launch(PlannedWork(imageFile, env), Login(Some(OAuthTokenUser), token), workers)
  }

  function QuayEeOutcome(username: Option<string>, password: Option<string>, token: Option<string>,
                         workers: int, imageFile: Option<string>, env: Environment): Outcome {
    match CheckQuayEe(username, password, token)
    case Some(e) => Rejected(e)
    case None =>
      var login := TokenLogin(username, password, token);
      GenericOutcome(login.username, login.password, workers, imageFile, env)
  }

  /** The queue assembly shared by `generic_migration` and `quay_migration`:
      put the pinned pairs of the image file, or take the catalog, then
      `populate_tags` for the bare names. */
  method ResolveWork(imageFile: Option<string>, env: Environment) returns (q: WorkQueue)
    ensures q.items == PlannedWork(imageFile, env)
  {
    var imageNames: seq<string> := [];
    q := new WorkQueue();
    if Given(imageFile) {
      var images;
      imageNames, images := ParseImageFile(ReadLines(env.files, imageFile.value));
      var i := 0;
      while i < |images|
        invariant 0 <= i <= |images|
        invariant q.items == images[..i]
      {
        assert images[..i + 1] == images[..i] + [images[i]];
        q.PutNowait(images[i]);
        i := i + 1;
      }
      assert images[..i] == images;
    } else {
      imageNames := env.catalog;
    }
    if |imageNames| > 0 {
      PopulateTags(imageNames, env.tags, q);
    }
  }

  /** `generic_migration(args, work_dir)` up to `perform_migration`. */
  method GenericMigration(args: Args, env: Environment) returns (o: Outcome)
    ensures o == GenericOutcome(args.sourceUsername, args.sourcePassword, args.workers, args.imageFile, env)
  {
    if Given(args.sourceUsername) != Given(args.sourcePassword) {
      return Rejected(CredentialsNotPaired);
    }
    if args.workers < MinNumOfWorkers || args.workers > MaxNumOfWorkers {
      return Rejected(WorkersOutOfRange);
    }
    var q := ResolveWork(args.imageFile, env);
    if !q.Empty() {
      o := Migrate(q.items, Login(args.sourceUsername, args.sourcePassword), args.workers);
    } else {
      o := NothingToMigrate;
    }
  }

  /** `quay_migration(args, work_dir)` up to `perform_migration`. It runs no
      argument checks: the worker count is passed on as given. */
  method QuayMigration(args: Args, env: Environment) returns (o: Outcome)
    ensures o == QuayOutcome(args.token, args.workers, args.imageFile, env)
  {
    var q := ResolveWork(args.imageFile, env);
    var login := Login(Some(OAuthTokenUser), args.token);
    if !q.Empty() {
      o := Migrate(q.items, login, args.workers);
    } else {
      o := NothingToMigrate;
    }
  }

  /** `quay_ee_migration(args, work_dir)`: its own checks, the token
      rewrite of `args`, then `generic_migration` on the rewritten `args`. */
  method QuayEeMigration(args: Args, env: Environment) returns (o: Outcome)
    modifies args
    ensures o == QuayEeOutcome(old(args.sourceUsername), old(args.sourcePassword), old(args.token),
                               old(args.workers), old(args.imageFile), env)
    ensures var login := TokenLogin(old(args.sourceUsername), old(args.sourcePassword), old(args.token));
      if CheckQuayEe(old(args.sourceUsername), old(args.sourcePassword), old(args.token)).None?
      then args.sourceUsername == login.username && args.sourcePassword == login.password
      else args.sourceUsername == old(args.sourceUsername) && args.sourcePassword == old(args.sourcePassword)
    ensures args.token == old(args.token) && args.workers == old(args.workers) && args.imageFile == old(args.imageFile)
  {
    if Given(args.sourceUsername) != Given(args.sourcePassword) {
      return Rejected(CredentialsNotPaired);
    }
    if Given(args.token) && Given(args.sourceUsername) {
      return Rejected(TokenWithCredentials);
    }
    if !(Given(args.token) || Given(args.sourceUsername)) {
      return Rejected(NoCredentials);
    }
    if Given(args.token) {
      args.sourceUsername := Some(OAuthTokenUser);
      args.sourcePassword := args.token;
    }
    o := GenericMigration(args, env);
  }

  /** The worker count is checked at both ends of [1, 16]: with paired
      credentials, 0 and 17 stop the run, 1, 16 and the default 2 do not. */
  lemma WorkerBounds(username: Option<string>, password: Option<string>,
                     imageFile: Option<string>, env: Environment)
    requires Given(username) == Given(password)
    ensures GenericOutcome(username, password, 0, imageFile, env) == Rejected(WorkersOutOfRange)
    ensures GenericOutcome(username, password, 17, imageFile, env) == Rejected(WorkersOutOfRange)
    ensures !GenericOutcome(username, password, 1, imageFile, env).Rejected?
    ensures !GenericOutcome(username, password, 16, imageFile, env).Rejected?
    ensures !GenericOutcome(username, password, NumOfWorkers, imageFile, env).Rejected?
  {
  }

  /** A generic run is stopped, before any queue is built, exactly when the
      credentials are unpaired or the worker count is outside [1, 16]; the
      credential check comes first. */
  lemma GenericRejects(username: Option<string>, password: Option<string>, workers: int,
                       imageFile: Option<string>, env: Environment)
    ensures GenericOutcome(username, password, workers, imageFile, env).Rejected? <==>
      (Given(username) != Given(password) || workers < MinNumOfWorkers || workers > MaxNumOfWorkers)
    ensures Given(username) != Given(password) ==>
      GenericOutcome(username, password, workers, imageFile, env) == Rejected(CredentialsNotPaired)
  {
  }

  /** A generic run that migrates has a non-empty queue, exactly the planned
      work, and a worker count within [1, 16]. */
  lemma GenericMigrates(username: Option<string>, password: Option<string>, workers: int,
                        imageFile: Option<string>, env: Environment)
    ensures GenericOutcome(username, password, workers, imageFile, env).Migrate? <==>
      (Given(username) == Given(password) && MinNumOfWorkers <= workers <= MaxNumOfWorkers
       && PlannedWork(imageFile, env) != [])
    ensures var o := GenericOutcome(username, password, workers, imageFile, env);
      o.Migrate? ==> o.work == PlannedWork(imageFile, env) && MinNumOfWorkers <= o.workers <= MaxNumOfWorkers
  {
  }

  /** `quay_migration` accepts any worker count, 0 and 17 included. */
  lemma QuayWorkersUnchecked(token: Option<string>, workers: int, imageFile: Option<string>, env: Environment)
    requires PlannedWork(imageFile, env) != []
    ensures QuayOutcome(token, workers, imageFile, env) ==
      Migrate(PlannedWork(imageFile, env), Login(Some(OAuthTokenUser), token), workers)
  {
  }

  /** A quay run reports "Nothing to migrate." exactly when the planned
      queue is empty; it is never stopped by a check. */
  lemma QuayNothingToMigrate(token: Option<string>, workers: int, imageFile: Option<string>, env: Environment)
    ensures QuayOutcome(token, workers, imageFile, env) == NothingToMigrate <==> PlannedWork(imageFile, env) == []
    ensures !QuayOutcome(token, workers, imageFile, env).Rejected?
  {
  }

  /** After the `quayee` checks pass, the login always has both a user name
      and a password, so the credential check of `generic_migration` that
      follows cannot fail. */
  lemma QuayEeLoginComplete(username: Option<string>, password: Option<string>, token: Option<string>)
    requires CheckQuayEe(username, password, token).None?
    ensures var login := TokenLogin(username, password, token);
      Given(login.username) && Given(login.password)
      && (Given(token) ==> login == Login(Some(OAuthTokenUser), token))
      && (!Given(token) ==> login == Login(username, password))
  {
  }

  /** A `quayee` run is stopped exactly when one of the credential rules or
      the worker range is broken. */
  lemma QuayEeRejects(username: Option<string>, password: Option<string>, token: Option<string>,
                      workers: int, imageFile: Option<string>, env: Environment)
    ensures QuayEeOutcome(username, password, token, workers, imageFile, env).Rejected? <==>
      (Given(username) != Given(password)
       || (Given(token) && Given(username))
       || (!Given(token) && !Given(username))
       || workers < MinNumOfWorkers || workers > MaxNumOfWorkers)
  {
  }

  /** With an image file, every pinned pair precedes every item expanded
      from a bare name, and the queue holds exactly as many items as there
      are pinned pairs plus tags of the bare names. */
  lemma FileModeOrder(imageFile: Option<string>, env: Environment)
    requires Given(imageFile)
    ensures var parsed := Parse(ReadLines(env.files, imageFile.value));
      var work := PlannedWork(imageFile, env);
      && |work| == |parsed.1| + TagTotal(parsed.0, env.tags)
      && work[..|parsed.1|] == parsed.1
      && work[|parsed.1|..] == Expand(parsed.0, env.tags)
  {
    var parsed := Parse(ReadLines(env.files, imageFile.value));
    ExpandLength(parsed.0, env.tags);
    var work := PlannedWork(imageFile, env);
    assert work == parsed.1 + Expand(parsed.0, env.tags);
    assert work[..|parsed.1|] == parsed.1;
  }

  /** Without an image file, the queue holds one item per tag of every
      catalog repository, and an item is queued exactly when its repository
      is in the catalog and its tag is among that repository's tags. */
  lemma DiscoveryModeWork(imageFile: Option<string>, env: Environment, r: ImageRef)
    requires !Given(imageFile)
    ensures |PlannedWork(imageFile, env)| == TagTotal(env.catalog, env.tags)
    ensures r in PlannedWork(imageFile, env) <==> r.name in env.catalog && r.tag in TagsOf(env.tags, r.name)
  {
    ExpandLength(env.catalog, env.tags);
    ExpandMember(env.catalog, env.tags, r);
  }

  /** An image file `foo:latest` / `bar` with `bar` tagged `v1` and `v2`
      gives the queue (foo, latest), (bar, v1), (bar, v2), in that order. */
  lemma EndToEndExample(path: string, l0: string, l1: string, env: Environment)
    requires path != "" && l0 == "foo:latest\n" && l1 == "bar\n"
    requires env.files == map[path := [l0, l1]] && env.tags == map["bar" := ["v1", "v2"]]
    ensures GenericOutcome(None, None, NumOfWorkers, Some(path), env)
         == Migrate([ImageRef("foo", "latest"), ImageRef("bar", "v1"), ImageRef("bar", "v2")],
                    Login(None, None), NumOfWorkers)
  {
    EndToEndParse(l0, l1);
    assert ["bar"][..0] == [];
    assert Expand(["bar"], env.tags) == ItemsFor("bar", ["v1", "v2"]);
  }

  lemma EndToEndParse(l0: string, l1: string)
    requires l0 == "foo:latest\n" && l1 == "bar\n"
    ensures Parse(Some([l0, l1])) == (["bar"], [ImageRef("foo", "latest")])
  {
    var k0, k1 := Pin(ImageRef("foo", "latest")), Bare("bar");
    EndToEndKinds(l0, l1);
    assert [k0, k1][..1] == [k0];
    assert [k0][..0] == [];
    assert BareNames([k0]) == [] && PinnedRefs([k0]) == [k0.ref];
    assert BareNames([k0, k1]) == ["bar"] && PinnedRefs([k0, k1]) == [k0.ref];
    assert Unpackable !in [k0, k1];
  }

  lemma EndToEndKinds(l0: string, l1: string)
    requires l0 == "foo:latest\n" && l1 == "bar\n"
    ensures Kinds([l0, l1]) == [Pin(ImageRef("foo", "latest")), Bare("bar")]
  {
    ExamplePinLine(l0, "foo", "latest");
    ExampleBareLine(l1, "bar");
  }
}
