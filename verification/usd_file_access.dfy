/** The asset resolver, to which the files that a database may not read look missing, and what that hides. */
module UsdFileAccess {
  import opened Wrappers

  type Contents = string

  /** The files: `None` for those that do not exist. */
  type Files = string -> Option<Contents>

  /** What the resolver works with.
      `lookups` are the absolute paths that OpenUSD's default resolver tries for an asset path, in order: only one for
      an absolute path, one in each place that is searched for a relative path.
      `file` is the file that a path is in: the package for a path inside of a package, else the path itself.
      `contains` is whether a file with the given contents has what the path names inside of it. */
  datatype Context = Context(
    lookups: string -> seq<string>,
    file: string -> string,
    isRelative: string -> bool,
    contains: (string, Contents) -> bool,
    allowed: string -> bool)

  // ---------------------------------------------------------------- specification

  /** What has been refused: UsdFileAccess's fields. */
  datatype Refusals = Refusals(hasRefused: bool, refused: string)

  const NOTHING_REFUSED := Refusals(false, "")

  function Checked(context: Context, r: Refusals, path: string): (bool, Refusals) {
    if context.allowed(path) then (true, r)
    else (false, Refusals(true, if r.refused == "" then path else r.refused))
  }

  predicate Exists(context: Context, files: Files, path: string) {
    var contents := files(context.file(path));
    contents.Some? && context.contains(path, contents.value)
  }

  /** ArDefaultResolver::_Resolve: the first that exists. */
  function FirstExisting(context: Context, files: Files, paths: seq<string>): Option<string> {
    if paths == [] then None
    else if Exists(context, files, paths[0]) then Some(paths[0])
    else FirstExisting(context, files, paths[1..])
  }

  function Resolve(context: Context, files: Files, r: Refusals, assetPath: string): (Option<string>, Refusals) {
    var file := context.file(assetPath);
    if !context.isRelative(file) && !context.allowed(file) then (None, Checked(context, r, file).1)
    else
      var resolved := FirstExisting(context, files, context.lookups(assetPath));
      if resolved.None? then (None, r)
      else
        var (may, after) := Checked(context, r, context.file(resolved.value));
        (if may then resolved else None, after)
  }

  function OpenAsset(context: Context, files: Files, r: Refusals, resolvedPath: string): (Option<Contents>, Refusals) {
    var file := context.file(resolvedPath);
    var (may, after) := Checked(context, r, file);
    (if may then files(file) else None, after)
  }

  // ---------------------------------------------------------------- what a request is answered

  /** The path that a lookup ends at: the first that exists. */
  predicate IsFirst(context: Context, files: Files, paths: seq<string>, i: nat) {
    i < |paths| && Exists(context, files, paths[i]) && forall j :: 0 <= j < i ==> !Exists(context, files, paths[j])
  }

  lemma {:induction false} FirstIsFirst(context: Context, files: Files, paths: seq<string>)
    ensures match FirstExisting(context, files, paths)
            case None => forall i :: 0 <= i < |paths| ==> !Exists(context, files, paths[i])
            case Some(path) => exists i: nat :: IsFirst(context, files, paths, i) && paths[i] == path
  {
    if paths == [] {
    } else {
      var rest := paths[1..];
      FirstIsFirst(context, files, rest);
      if Exists(context, files, paths[0]) {
        assert IsFirst(context, files, paths, 0);
      } else if i: nat :| IsFirst(context, files, rest, i) && Some(rest[i]) == FirstExisting(context, files, rest) {
        assert IsFirst(context, files, paths, i + 1);
      }
    }
  }

  /** Whether the path is refused before any file is looked for. */
  predicate RefusedUnseen(context: Context, assetPath: string) {
    !context.isRelative(context.file(assetPath)) && !context.allowed(context.file(assetPath))
  }

  /** An asset path resolves to the first of its lookups that exists, if there is one and its file may be read, unless
      the path is refused unseen. */
  ghost predicate ResolvesTo(context: Context, files: Files, assetPath: string, result: Option<string>) {
    var paths := context.lookups(assetPath);
    && (forall i: nat :: IsFirst(context, files, paths, i) ==>
          (result == Some(paths[i]) <==>
             !RefusedUnseen(context, assetPath) && context.allowed(context.file(paths[i]))))
    && (result.Some? ==> exists i: nat :: IsFirst(context, files, paths, i) && result == Some(paths[i]))
  }

  /** Resolving the path checks `file`, which may not be read: the path's own, or the one that it is found in. */
  ghost predicate RefusesToResolve(context: Context, files: Files, assetPath: string, file: string) {
    var paths := context.lookups(assetPath);
    !context.allowed(file) &&
    if RefusedUnseen(context, assetPath) then file == context.file(assetPath)
    else exists i: nat :: IsFirst(context, files, paths, i) && context.file(paths[i]) == file
  }

  /** The record is the same, or has the first refused file that is not of the empty path. */
  predicate Recorded(r: Refusals, after: Refusals, file: string) {
    after == Refusals(true, if r.refused != "" then r.refused else file)
  }

  lemma OneIsFirst(context: Context, files: Files, paths: seq<string>, i: nat)
    requires IsFirst(context, files, paths, i)
    ensures forall j: nat :: IsFirst(context, files, paths, j) ==> j == i
  {
  }

  /** A path is resolved to the right file, and recorded exactly if it is refused. */
  lemma ResolveIsRight(context: Context, files: Files, r: Refusals, assetPath: string)
    ensures ResolvesTo(context, files, assetPath, Resolve(context, files, r, assetPath).0)
    ensures forall file :: RefusesToResolve(context, files, assetPath, file) ==>
              Recorded(r, Resolve(context, files, r, assetPath).1, file)
    ensures (forall file :: !RefusesToResolve(context, files, assetPath, file)) ==>
              Resolve(context, files, r, assetPath).1 == r
  {
    var paths := context.lookups(assetPath);
    FirstIsFirst(context, files, paths);
    hide FirstExisting, Exists;
    if RefusedUnseen(context, assetPath) {
      assert RefusesToResolve(context, files, assetPath, context.file(assetPath));
    } else if FirstExisting(context, files, paths).Some? {
      var i: nat :| IsFirst(context, files, paths, i) && Some(paths[i]) == FirstExisting(context, files, paths);
      assert forall j: nat :: IsFirst(context, files, paths, j) ==> j == i by { OneIsFirst(context, files, paths, i); }
      if !context.allowed(context.file(paths[i])) {
        assert RefusesToResolve(context, files, assetPath, context.file(paths[i]));
      }
    }
  }

  // ---------------------------------------------------------------- the resolver

  class FileAccess {
    const allowed: string -> bool
    var hasRefused: bool
    var refused: string

    constructor (allowed: string -> bool)
      ensures this.allowed == allowed && Get() == NOTHING_REFUSED
    {
      this.allowed := allowed;
      hasRefused, refused := false, "";
    }

    function Get(): Refusals
      reads this
    {
      Refusals(hasRefused, refused)
    }

    /** Whether the file may be read. Records it if not. */
    method Check(path: string) returns (may: bool)
      modifies this
      ensures may == allowed(path)
      ensures may ==> Get() == old(Get())
      ensures !may ==> hasRefused && refused == if old(refused) == "" then path else old(refused)
    {
      if allowed(path) {
        return true;
      }
      if refused == "" {
        refused := path;
      }
      hasRefused := true;
      return false;
    }

    /** The path that the error is about, if a file was refused. */
    method ThrowIfRefused() returns (error: Option<string>)
      ensures error == if hasRefused then Some(refused) else None
    {
      if !hasRefused {
        return None;
      }
      return Some(refused);
    }
  }

  method DefaultResolve(context: Context, files: Files, assetPath: string) returns (resolved: Option<string>)
    ensures resolved == FirstExisting(context, files, context.lookups(assetPath))
  {
    var paths := context.lookups(assetPath);
    for i := 0 to |paths|
      invariant FirstExisting(context, files, paths) == FirstExisting(context, files, paths[i..])
    {
      if Exists(context, files, paths[i]) {
        return Some(paths[i]);
      }
    }
    return None;
  }

  /** UsdAccessCheckingResolver::_Resolve. Without access settings, it is the default resolver. */
  method ResolveAsset(context: Context, files: Files, access: FileAccess?,
                      assetPath: string) returns (result: Option<string>)
    requires access != null ==> access.allowed == context.allowed
    modifies access
    ensures access == null ==> result == FirstExisting(context, files, context.lookups(assetPath))
    ensures access != null ==>
              && (result, access.Get()) == Resolve(context, files, old(access.Get()), assetPath)
              && ResolvesTo(context, files, assetPath, result)
  {
    hide Exists, ResolvesTo;
    if access != null {
      ResolveIsRight(context, files, access.Get(), assetPath);
    }
    if access == null {
      result := DefaultResolve(context, files, assetPath);
      return;
    }
    // what is refused without a look cannot tell whether the file exists
    var file := context.file(assetPath);
    if !context.isRelative(file) {
      var may := access.Check(file);
      if !may {
        return None;
      }
    }
    var resolved := DefaultResolve(context, files, assetPath);
    if resolved.Some? {
      var may := access.Check(context.file(resolved.value));
      if !may {
        return None;
      }
    }
    return resolved;
  }

  /** UsdAccessCheckingResolver::_OpenAsset */
  method OpenResolved(context: Context, files: Files, access: FileAccess?,
                      resolvedPath: string) returns (asset: Option<Contents>)
    requires access != null ==> access.allowed == context.allowed
    modifies access
    ensures access == null ==> asset == files(context.file(resolvedPath))
    ensures access != null ==>
              && (asset, access.Get()) == OpenAsset(context, files, old(access.Get()), resolvedPath)
              && (if context.allowed(context.file(resolvedPath))
                  then asset == files(context.file(resolvedPath)) && access.Get() == old(access.Get())
                  else asset == None && Recorded(old(access.Get()), access.Get(), context.file(resolvedPath)))
  {
    if access != null {
      var may := access.Check(context.file(resolvedPath));
      if !may {
        return None;
      }
    }
    return files(context.file(resolvedPath));
  }

  // ---------------------------------------------------------------- what one call hides

  /** Two file systems that only differ in files that may not be read. */
  ghost predicate AgreeOnAllowed(context: Context, a: Files, b: Files) {
    forall path: string :: context.allowed(path) ==> a(path) == b(path)
  }

  /** Whether every file that resolving the path would look at may be read, or the path is refused without a look. */
  predicate Guarded(context: Context, assetPath: string) {
    var file := context.file(assetPath);
    (!context.isRelative(file) && !context.allowed(file)) ||
    forall i :: 0 <= i < |context.lookups(assetPath)| ==> context.allowed(context.file(context.lookups(assetPath)[i]))
  }

  /** Resolving a path does not depend on files that may not be read: neither its result, nor what it records. */
  ghost predicate Hides(context: Context, assetPath: string) {
    forall a: Files, b: Files, r: Refusals :: AgreeOnAllowed(context, a, b) ==>
      Resolve(context, a, r, assetPath) == Resolve(context, b, r, assetPath)
  }

  lemma {:induction false} SameFirst(context: Context, a: Files, b: Files, paths: seq<string>)
    requires AgreeOnAllowed(context, a, b)
    requires forall i :: 0 <= i < |paths| ==> context.allowed(context.file(paths[i]))
    ensures FirstExisting(context, a, paths) == FirstExisting(context, b, paths)
  {
    if paths == [] {
    } else {
      assert context.allowed(context.file(paths[0]));
      SameFirst(context, a, b, paths[1..]);
    }
  }

  lemma GuardedHides(context: Context, a: Files, b: Files, r: Refusals, assetPath: string)
    requires AgreeOnAllowed(context, a, b) && Guarded(context, assetPath)
    ensures Resolve(context, a, r, assetPath) == Resolve(context, b, r, assetPath)
  {
    var file := context.file(assetPath);
    if context.isRelative(file) || context.allowed(file) {
      SameFirst(context, a, b, context.lookups(assetPath));
    }
  }

  /** Whether a file that holds what the path names is possible at all. */
  ghost predicate Possible(context: Context, path: string) {
    exists contents: Contents :: context.contains(path, contents)
  }

  lemma {:induction false} FindsOnly(context: Context, paths: seq<string>, file: string, contents: Contents, i: nat)
    requires i < |paths| && context.file(paths[i]) == file && context.contains(paths[i], contents)
    ensures var files: Files := p => if p == file then Some(contents) else None;
      FirstExisting(context, files, paths).Some? && context.file(FirstExisting(context, files, paths).value) == file
  {
    var files: Files := p => if p == file then Some(contents) else None;
    if !Exists(context, files, paths[0]) {
      FindsOnly(context, paths[1..], file, contents, i - 1);
    }
  }

  lemma {:induction false} FindsNothing(context: Context, paths: seq<string>)
    ensures FirstExisting(context, _ => None, paths) == None
  {
    if paths == [] {
    } else {
      FindsNothing(context, paths[1..]);
    }
  }

  /** Exactly the guarded paths hide the files that may not be read. */
  lemma HidesIffGuarded(context: Context, assetPath: string)
    requires forall path: string :: Possible(context, path)
    ensures Hides(context, assetPath) <==> Guarded(context, assetPath)
  {
    if Guarded(context, assetPath) {
      forall a: Files, b: Files, r: Refusals | AgreeOnAllowed(context, a, b)
        ensures Resolve(context, a, r, assetPath) == Resolve(context, b, r, assetPath)
      {
        GuardedHides(context, a, b, r, assetPath);
      }
    } else {
      var paths := context.lookups(assetPath);
      var i :| 0 <= i < |paths| && !context.allowed(context.file(paths[i]));
      assert Possible(context, paths[i]);
      var contents: Contents :| context.contains(paths[i], contents);
      var file := context.file(paths[i]);
      var none: Files := _ => None;
      var some: Files := p => if p == file then Some(contents) else None;
      FindsNothing(context, paths);
      FindsOnly(context, paths, file, contents, i);
      assert AgreeOnAllowed(context, none, some);
      assert Resolve(context, none, NOTHING_REFUSED, assetPath).1 == NOTHING_REFUSED;
      assert Resolve(context, some, NOTHING_REFUSED, assetPath).1.hasRefused;
    }
  }

  /** Two places are searched for a relative path; the first may not be read. */
  const SEARCHING := Context(
    path => if path == "a.usd" then ["/secret/a.usd", "/open/a.usd"] else [path],
    path => path,
    path => path == "" || path[0] != '/',
    (path, contents) => true,
    path => path != "/secret/a.usd")

  const IN_OPEN: Files := path => if path == "/open/a.usd" then Some("") else None
  const IN_BOTH: Files := path => if path == "/open/a.usd" || path == "/secret/a.usd" then Some("") else None

  /** Whether the file that may not be read exists makes a difference to the path that is found, and to what is
      recorded. */
  lemma RelativePathTells()
    ensures AgreeOnAllowed(SEARCHING, IN_OPEN, IN_BOTH)
    ensures Resolve(SEARCHING, IN_OPEN, NOTHING_REFUSED, "a.usd") == (Some("/open/a.usd"), NOTHING_REFUSED)
    ensures Resolve(SEARCHING, IN_BOTH, NOTHING_REFUSED, "a.usd") == (None, Refusals(true, "/secret/a.usd"))
  {
    var paths := ["/secret/a.usd", "/open/a.usd"];
    assert "/secret/a.usd"[1] != "/open/a.usd"[1] && "a.usd"[0] != '/';
    assert paths[1..] == ["/open/a.usd"];
    assert FirstExisting(SEARCHING, IN_OPEN, paths[1..]) == Some("/open/a.usd");
  }

  // ---------------------------------------------------------------- opening a stage

  datatype Request = ToResolve(assetPath: string) | ToOpen(resolvedPath: string) | Done(stage: Option<string>)

  datatype Answer = Resolved(path: Option<string>) | Asset(contents: Option<Contents>)

  /** OpenUSD, composing a stage: what it asks of the resolver next, or the stage, depends on the answers so far. */
  type Client = seq<Answer> -> Request

  /** The answers, and what was refused, after at most `steps` requests. */
  function Compose(context: Context, files: Files, client: Client, steps: nat): (seq<Answer>, Refusals) {
    if steps == 0 then ([], NOTHING_REFUSED)
    else
      var (answers, r) := Compose(context, files, client, steps - 1);
      match client(answers)
      case Done(_) => (answers, r)
      case ToResolve(path) =>
        var (resolved, after) := Resolve(context, files, r, path);
        (answers + [Resolved(resolved)], after)
      case ToOpen(path) =>
        var (contents, after) := OpenAsset(context, files, r, path);
        (answers + [Asset(contents)], after)
  }

  datatype Outcome = PermissionError(path: string) | IOError | Opened(stage: string)

  /** A refused file is reported before anything else is. */
  function OutcomeOf(client: Client, composed: (seq<Answer>, Refusals)): Outcome {
    if composed.1.hasRefused then PermissionError(composed.1.refused)
    else
      match client(composed.0)
      case Done(Some(stage)) => Opened(stage)
      case _ => IOError
  }

  /** Answering the request checks `file`, which may not be read. */
  ghost predicate Refuses(context: Context, files: Files, request: Request, file: string) {
    match request
    case Done(_) => false
    case ToResolve(path) => RefusesToResolve(context, files, path, file)
    case ToOpen(path) => file == context.file(path) && !context.allowed(file)
  }

  ghost predicate IsAnswer(context: Context, files: Files, request: Request, answer: Answer) {
    match request
    case Done(_) => false
    case ToResolve(path) => answer.Resolved? && ResolvesTo(context, files, path, answer.path)
    case ToOpen(path) =>
      answer == Asset(if context.allowed(context.file(path)) then files(context.file(path)) else None)
  }

  /** What OpenUSD asks for after `n` steps. */
  ghost function RequestAt(context: Context, files: Files, client: Client, n: nat): Request {
    client(Compose(context, files, client, n).0)
  }

  /** The file is refused in step `n`. */
  ghost predicate RefusedAt(context: Context, files: Files, client: Client, n: nat, file: string) {
    Refuses(context, files, RequestAt(context, files, client, n), file)
  }

  /** A file is refused in the first `steps` steps. */
  ghost predicate AnyRefused(context: Context, files: Files, client: Client, steps: nat) {
    exists n: nat, file :: n < steps && RefusedAt(context, files, client, n, file)
  }

  /** `path` is the first refused one that is not empty, if there is one. */
  ghost predicate IsFirstRefused(context: Context, files: Files, client: Client, steps: nat, path: string) {
    if path == "" then forall n: nat, file :: n < steps && RefusedAt(context, files, client, n, file) ==> file == ""
    else exists n: nat ::
      && n < steps && RefusedAt(context, files, client, n, path)
      && forall m: nat, file :: m < n && RefusedAt(context, files, client, m, file) ==> file == ""
  }

  /** Opening a stage ends with an error about the first file that was refused, whatever else became of it; else with
      the stage that OpenUSD composed; and with another error only if there is none. */
  ghost predicate EndsRightly(context: Context, files: Files, client: Client, steps: nat, outcome: Outcome) {
    var end := RequestAt(context, files, client, steps);
    if AnyRefused(context, files, client, steps) then
      outcome.PermissionError? && IsFirstRefused(context, files, client, steps, outcome.path)
    else if end.Done? && end.stage.Some? then outcome == Opened(end.stage.value)
    else outcome == IOError
  }

  /** Every request gets its answer, until the stage is composed. */
  lemma EveryRequestIsAnswered(context: Context, files: Files, client: Client, n: nat)
    ensures var request, answers := RequestAt(context, files, client, n), Compose(context, files, client, n).0;
            var next := Compose(context, files, client, n + 1).0;
            if request.Done? then next == answers
            else exists answer :: next == answers + [answer] && IsAnswer(context, files, request, answer)
  {
    hide ResolvesTo, FirstExisting, Exists, RefusesToResolve;
    var (answers, r) := Compose(context, files, client, n);
    match client(answers)
    case Done(_) =>
    case ToResolve(path) =>
      ResolveIsRight(context, files, r, path);
      var answer := Resolved(Resolve(context, files, r, path).0);
      assert IsAnswer(context, files, client(answers), answer);
    case ToOpen(path) =>
      var answer := Asset(OpenAsset(context, files, r, path).0);
      assert IsAnswer(context, files, client(answers), answer);
  }

  /** What a step records: whatever it refuses. */
  lemma StepRecords(context: Context, files: Files, client: Client, n: nat)
    ensures var r, after := Compose(context, files, client, n).1, Compose(context, files, client, n + 1).1;
            && (forall file :: RefusedAt(context, files, client, n, file) ==> Recorded(r, after, file))
            && ((forall file :: !RefusedAt(context, files, client, n, file)) ==> after == r)
  {
    hide FirstExisting, Exists, RefusesToResolve;
    var (answers, r) := Compose(context, files, client, n);
    match client(answers)
    case Done(_) =>
    case ToResolve(path) =>
      ResolveIsRight(context, files, r, path);
      assert forall file ::
        RefusedAt(context, files, client, n, file) <==> RefusesToResolve(context, files, path, file);
    case ToOpen(path) =>
      assert RefusedAt(context, files, client, n, context.file(path)) <==> !context.allowed(context.file(path));
  }

  lemma AnyRefusedNext(context: Context, files: Files, client: Client, n: nat)
    ensures AnyRefused(context, files, client, n + 1) <==>
            AnyRefused(context, files, client, n) || exists file :: RefusedAt(context, files, client, n, file)
  {
    hide RefusedAt;
  }

  lemma FirstRefusedNext(context: Context, files: Files, client: Client, n: nat, path: string)
    requires IsFirstRefused(context, files, client, n, path)
    ensures path != "" ==> IsFirstRefused(context, files, client, n + 1, path)
    ensures path == "" ==>
              && (forall file :: RefusedAt(context, files, client, n, file) && file != "" ==>
                    IsFirstRefused(context, files, client, n + 1, file))
              && ((forall file :: RefusedAt(context, files, client, n, file) ==> file == "") ==>
                    IsFirstRefused(context, files, client, n + 1, path))
  {
    hide RefusedAt;
  }

  lemma {:induction false} RecordIsRight(context: Context, files: Files, client: Client, steps: nat)
    ensures var r := Compose(context, files, client, steps).1;
            && (r.hasRefused <==> AnyRefused(context, files, client, steps))
            && IsFirstRefused(context, files, client, steps, r.refused)
  {
    hide RefusedAt;
    if steps == 0 {
    } else {
      hide Compose, AnyRefused, IsFirstRefused;
      RecordIsRight(context, files, client, steps - 1);
      StepRecords(context, files, client, steps - 1);
      AnyRefusedNext(context, files, client, steps - 1);
      FirstRefusedNext(context, files, client, steps - 1, Compose(context, files, client, steps - 1).1.refused);
    }
  }

  lemma OutcomeIsRight(context: Context, files: Files, client: Client, steps: nat)
    ensures EndsRightly(context, files, client, steps, OutcomeOf(client, Compose(context, files, client, steps)))
  {
    hide Compose, AnyRefused, IsFirstRefused;
    RecordIsRight(context, files, client, steps);
  }

  /** OpenStage, with its own access settings. */
  method OpenStage(context: Context, files: Files, client: Client, steps: nat) returns (outcome: Outcome)
    ensures outcome == OutcomeOf(client, Compose(context, files, client, steps))
    ensures EndsRightly(context, files, client, steps, outcome)
  {
    hide EndsRightly, ResolvesTo;
    OutcomeIsRight(context, files, client, steps);
    var access := new FileAccess(context.allowed);
    var answers: seq<Answer> := [];
    for i := 0 to steps
      invariant access.allowed == context.allowed
      invariant (answers, access.Get()) == Compose(context, files, client, i)
    {
      match client(answers)
      case Done(_) =>
      case ToResolve(path) =>
        var resolved := ResolveAsset(context, files, access, path);
        answers := answers + [Resolved(resolved)];
      case ToOpen(path) =>
        var contents := OpenResolved(context, files, access, path);
        answers := answers + [Asset(contents)];
    }
    var error := access.ThrowIfRefused();
    if error.Some? {
      return PermissionError(error.value);
    }
    match client(answers)
    case Done(Some(stage)) => return Opened(stage);
    case _ => return IOError;
  }

  /** In the first `steps` steps of composing, only guarded paths are resolved. */
  ghost predicate AsksGuarded(context: Context, files: Files, client: Client, steps: nat) {
    forall n: nat :: n < steps ==>
      var request := client(Compose(context, files, client, n).0);
      request.ToResolve? ==> Guarded(context, request.assetPath)
  }

  /** However OpenUSD composes a stage, as long as it only asks for guarded paths: which files exist that may not be
      read, and what is in them, makes no difference to any answer, nor to the stage or the error that is reported. */
  lemma {:induction false} RefusedFilesAreHidden(context: Context, a: Files, b: Files, client: Client, steps: nat)
    requires AgreeOnAllowed(context, a, b) && AsksGuarded(context, a, client, steps)
    ensures Compose(context, a, client, steps) == Compose(context, b, client, steps)
    ensures OutcomeOf(client, Compose(context, a, client, steps)) ==
            OutcomeOf(client, Compose(context, b, client, steps))
  {
    if steps == 0 {
    } else {
      RefusedFilesAreHidden(context, a, b, client, steps - 1);
      var (answers, r) := Compose(context, a, client, steps - 1);
      match client(answers)
      case ToResolve(path) => GuardedHides(context, a, b, r, path);
      case _ =>
    }
  }

  /** Absolute paths are looked up in one place, and whoever may read a file may read it under the path it resolves
      to. */
  ghost predicate PermissionCarriesOver(context: Context) {
    forall path: string :: !context.isRelative(context.file(path)) ==>
      && |context.lookups(path)| == 1
      && (context.allowed(context.file(path)) ==> context.allowed(context.file(context.lookups(path)[0])))
  }

  ghost predicate AsksAbsolute(context: Context, files: Files, client: Client, steps: nat) {
    forall n: nat :: n < steps ==>
      var request := client(Compose(context, files, client, n).0);
      request.ToResolve? ==> !context.isRelative(context.file(request.assetPath))
  }

  /** A stage whose asset paths are absolute has the same outcome on two file systems that agree on the allowed files:
      the same stage, or a permission error that names the same file. */
  lemma AbsolutePathsAreHidden(context: Context, a: Files, b: Files, client: Client, steps: nat)
    requires AgreeOnAllowed(context, a, b) && PermissionCarriesOver(context) && AsksAbsolute(context, a, client, steps)
    ensures OutcomeOf(client, Compose(context, a, client, steps)) ==
            OutcomeOf(client, Compose(context, b, client, steps))
  {
    hide Compose, AgreeOnAllowed;
    RefusedFilesAreHidden(context, a, b, client, steps);
  }

  /** No answer ever has anything of a file that may not be read. */
  lemma {:induction false} AnswersAreAllowed(context: Context, files: Files, client: Client, steps: nat)
    ensures forall answer :: answer in Compose(context, files, client, steps).0 ==>
      match answer
      case Resolved(path) => path.Some? ==> context.allowed(context.file(path.value))
      case Asset(contents) => contents.Some? ==> exists path :: context.allowed(path) && files(path) == contents
  {
    if steps == 0 {
    } else {
      AnswersAreAllowed(context, files, client, steps - 1);
    }
  }

  /** `later` still has the refusal of `r`, if there is one (and which, unless it is of the empty path). */
  predicate StillRefused(r: Refusals, later: Refusals) {
    (r.hasRefused ==> later.hasRefused) && (r.refused != "" ==> later.refused == r.refused)
  }

  lemma StepStaysRefused(context: Context, files: Files, client: Client, steps: nat)
    ensures StillRefused(Compose(context, files, client, steps).1, Compose(context, files, client, steps + 1).1)
  {
    hide FirstExisting;
    assert (steps + 1) - 1 == steps;
  }

  /** A refusal stays, whatever is requested later. */
  lemma {:induction false} RefusalIsSticky(context: Context, files: Files, client: Client, steps: nat, more: nat)
    ensures StillRefused(Compose(context, files, client, steps).1, Compose(context, files, client, steps + more).1)
  {
    hide Compose;
    if more == 0 {
    } else {
      RefusalIsSticky(context, files, client, steps, more - 1);
      StepStaysRefused(context, files, client, steps + more - 1);
    }
  }
}
