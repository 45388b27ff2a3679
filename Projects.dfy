/** The `projects` command of the OpenShift client: it reports the project the
    current context selects and lists every project the user can see.

    Calls into the cluster and helpers defined elsewhere in the client are
    inputs (see `Env`); the printed text is returned in a `Report`. */
module Projects {
  import Text

  datatype Option<T> = None | Some(value: T)
  datatype Result<T, E> = Success(value: T) | Failure(error: E)

  /** A project as the server returns it. */
  datatype Project = Project(name: string, annotations: map<string, string>)

  /** How `ConfirmProjectAccess` can fail. */
  datatype AccessFailure = Forbidden | NotFound | OtherFailure(message: string)

  /** The errors the command returns to its caller. */
  datatype Error =
    | ValidationError(message: string)
    | EnumerationError(message: string)
    | AccessError(failure: AccessFailure)

  /** A kubeconfig context: the namespace it selects and the cluster and user it names. */
  datatype Context = Context(namespace: string, cluster: string, authInfo: string)

  /** The parts of the raw kubeconfig the command reads. A context name that is
      not a key of `contexts` stands for the nil entry of the Go map. */
  datatype Config = Config(currentContext: string, contexts: map<string, Context>)

  /** The command's options after `Complete`: the loaded configuration, the
      host of the REST client, the command name used in hints and `--short`. */
  datatype Options = Options(config: Config, host: string, commandName: string, displayShort: bool)

  /** The collaborators the command calls and that are not part of this model:
      `ConfirmProjectAccess` (its result for a project name), `GetProjects`
      (the listing or its error), `GetContextNickname`,
      `DisplayNameAndNameForProject`, and Go's `%q` quoting. */
  datatype Env = Env(
    confirmProjectAccess: string -> Option<AccessFailure>,
    getProjects: Result<seq<Project>, string>,
    contextNickname: (string, string, string) -> string,
    displayNameAndNameForProject: Project -> string,
    quote: string -> string)

  /** What one run prints and returns: the text handed to `fmt.Println`
      (None when nothing is printed), the forbidden-access advisory, the
      "Using project" footer, and the returned error. */
  datatype Report = Report(msg: Option<string>, advisory: string, footer: string, err: Option<Error>)

  // ---------------------------------------------------------------------------
  // Validation

  /** The command takes no positional arguments. */
  function Validate(args: seq<string>): (err: Option<Error>)
    ensures err.Some? <==> |args| > 0
    ensures err.Some? ==> err.value == ValidationError("no arguments should be passed")
  {
    if |args| > 0 then Some(ValidationError("no arguments should be passed")) else None
  }

  // ---------------------------------------------------------------------------
  // Display names

  /** The annotation key `oapi.OpenShiftDisplayName`. */
  const OpenShiftDisplayName: string := "openshift.io/display-name"

  /** The older annotation key consulted when the first one gives nothing. */
  const LegacyDisplayName: string := "displayName"

  /** Go's map index: the value under `key`, or "" when the key is absent. */
  function Annotation(p: Project, key: string): string {
    if key in p.annotations then p.annotations[key] else ""
  }

  /** The display name of a project: the `OpenShiftDisplayName` annotation
      when it is non-empty, otherwise the `displayName` annotation. */
  function DisplayName(p: Project): (dn: string)
    ensures (OpenShiftDisplayName in p.annotations && p.annotations[OpenShiftDisplayName] != "") ==>
              dn == p.annotations[OpenShiftDisplayName]
    ensures (OpenShiftDisplayName !in p.annotations || p.annotations[OpenShiftDisplayName] == "") ==>
              dn == (if LegacyDisplayName in p.annotations then p.annotations[LegacyDisplayName] else "")
  {
    var first := Annotation(p, OpenShiftDisplayName);
    if |first| == 0 then Annotation(p, LegacyDisplayName) else first
  }

  // ---------------------------------------------------------------------------
  // SortByProjectName

  /** Ascending by name: no later project's name is below an earlier one's. */
  ghost predicate Sorted(s: seq<Project>) {
    forall i, j :: 0 <= i < j < |s| ==> !Text.Less(s[j].name, s[i].name)
  }

  ghost predicate UniqueNames(s: seq<Project>) {
    forall i, j :: 0 <= i < j < |s| ==> s[i].name != s[j].name
  }

  /** `Less(i, j)`: the name of entry i is below the name of entry j. */
  predicate Less(a: array<Project>, i: int, j: int)
    requires 0 <= i < a.Length && 0 <= j < a.Length
    reads a
    ensures i == j ==> !Less(a, i, j)
    ensures Less(a, i, j) ==> !Text.Less(a[j].name, a[i].name)
    ensures !Less(a, i, j) && !Text.Less(a[j].name, a[i].name) ==> a[i].name == a[j].name
  {
    Text.LessIrreflexive(a[i].name);
    Text.LessAsymmetric(a[i].name, a[j].name);
    Text.LessTotal(a[i].name, a[j].name);
    Text.Less(a[i].name, a[j].name)
  }

  /** `Swap(i, j)`: exchange entries i and j and nothing else. */
  method Swap(a: array<Project>, i: int, j: int)
    requires 0 <= i < a.Length && 0 <= j < a.Length
    modifies a
    ensures a[i] == old(a[j]) && a[j] == old(a[i])
    ensures forall k :: 0 <= k < a.Length && k != i && k != j ==> a[k] == old(a[k])
    ensures multiset(a[..]) == multiset(old(a[..]))
  {
    a[i], a[j] := a[j], a[i];
  }

  /** `sort.Sort(SortByProjectName(projects))`: sort in place by name, through
      `Less` and `Swap` over the array's `Length`. */
  method Sort(a: array<Project>)
    modifies a
    ensures Sorted(a[..])
    ensures multiset(a[..]) == multiset(old(a[..]))
  {
    var n := a.Length;
    var i := 0;
    while i < n
      invariant 0 <= i <= n
      invariant forall p, q :: 0 <= p < q < i ==> !Text.Less(a[q].name, a[p].name)
      invariant forall p, q :: 0 <= p < i <= q < n ==> !Text.Less(a[q].name, a[p].name)
      invariant multiset(a[..]) == multiset(old(a[..]))
    {
      var m := i;
      var j := i + 1;
      ghost var before := a[..];
      Text.LessIrreflexive(a[i].name);
      while j < n
        invariant i <= m < n && i + 1 <= j <= n
        invariant a[..] == before
        invariant forall k :: i <= k < j ==> !Text.Less(a[k].name, a[m].name)
      {
        if Less(a, j, m) {
          forall k | i <= k < j
            ensures !Text.Less(a[k].name, a[j].name)
          {
            if Text.Less(a[k].name, a[j].name) {
              Text.LessTransitive(a[k].name, a[j].name, a[m].name);
            }
          }
          Text.LessIrreflexive(a[j].name);
          m := j;
        }
        j := j + 1;
      }
      forall k | i <= k < n
        ensures !Text.Less(before[k].name, before[m].name)
      {
        assert before[k] == a[k] && before[m] == a[m];
      }
      forall p, q | 0 <= p < q < i
        ensures !Text.Less(before[q].name, before[p].name)
      {
        assert before[q] == a[q] && before[p] == a[p];
      }
      forall p, q | 0 <= p < i <= q < n
        ensures !Text.Less(before[q].name, before[p].name)
      {
        assert before[q] == a[q] && before[p] == a[p];
      }
      Swap(a, i, m);
      forall p, q | 0 <= p < q < i + 1
        ensures !Text.Less(a[q].name, a[p].name)
      {
        assert a[p] == before[p];
        if q == i {
          assert a[q] == before[m];
        } else {
          assert a[q] == before[q];
        }
      }
      forall p, q | 0 <= p < i + 1 <= q < n
        ensures !Text.Less(a[q].name, a[p].name)
      {
        var from := if q == m then i else q;
        assert a[q] == before[from];
        if p < i {
          assert a[p] == before[p];
        } else {
          assert a[p] == before[m];
        }
      }
      i := i + 1;
    }
  }

  /** Sorted by name with no name twice means strictly ascending. */
  lemma SortedUniqueAscends(s: seq<Project>)
    requires Sorted(s) && UniqueNames(s)
    ensures forall i, j :: 0 <= i < j < |s| ==> Text.Less(s[i].name, s[j].name)
  {
    forall i, j | 0 <= i < j < |s|
      ensures Text.Less(s[i].name, s[j].name)
    {
      Text.LessTotal(s[i].name, s[j].name);
    }
  }

  /** Two sorted arrangements of the same projects, with no name twice,
      begin with the same project. */
  lemma SameFirst(s: seq<Project>, t: seq<Project>)
    requires |s| > 0
    requires Sorted(s) && Sorted(t) && UniqueNames(s)
    requires multiset(s) == multiset(t)
    ensures |t| > 0 && s[0] == t[0]
  {
    assert s[0] in multiset(t);
    assert t[0] in multiset(s);
    var i :| 0 <= i < |s| && s[i] == t[0];
    var j :| 0 <= j < |t| && t[j] == s[0];
    if i != 0 {
      assert !Text.Less(t[0].name, s[0].name);
      if j != 0 {
        assert !Text.Less(s[0].name, t[0].name);
      }
      Text.LessTotal(s[0].name, t[0].name);
    }
  }

  /** Taking the same first element from two equal multisets leaves equal multisets. */
  lemma SameRest(s: seq<Project>, t: seq<Project>)
    requires |s| > 0 && |t| > 0 && s[0] == t[0]
    requires multiset(s) == multiset(t)
    ensures multiset(s[1..]) == multiset(t[1..])
  {
    assert s == [s[0]] + s[1..] && t == [t[0]] + t[1..];
    assert multiset(s[1..]) == multiset(s) - multiset{s[0]};
    assert multiset(t[1..]) == multiset(t) - multiset{t[0]};
  }

  /** With unique names there is only one sorted order, so the unstable sort
      cannot make the output depend on the order the server lists projects in. */
  lemma {:induction false} SortedOrderUnique(s: seq<Project>, t: seq<Project>)
    requires Sorted(s) && Sorted(t) && UniqueNames(s)
    requires multiset(s) == multiset(t)
    ensures s == t
    decreases |s|
  {
    assert |s| == |multiset(s)| == |multiset(t)| == |t|;
    if |s| > 0 {
      SameFirst(s, t);
      SameRest(s, t);
      SortedOrderUnique(s[1..], t[1..]);
      assert s == [s[0]] + s[1..] && t == [t[0]] + t[1..];
    }
  }

  // ---------------------------------------------------------------------------
  // The printed listing

  const NoProjectsMessage: string :=
    "You are not a member of any projects. You can request a project to be created with the 'new-project' command."

  /** The first line of the verbose listing, without its line break: it tells
      the user which command switches between the projects listed below it. */
  function HeaderLine(commandName: string): string {
    "You have access" + " to the following" + " projects and can" + " switch between" + " them with '" +
    commandName + " project" + " <projectname>':"
  }

  lemma HeaderSingleLine(commandName: string)
    requires Text.SingleLine(commandName)
    ensures Text.SingleLine(HeaderLine(commandName))
  {
  }

  /** The four-character marker in front of a verbose line; none at all unless
      the current project was confirmed accessible. */
  function Marker(p: Project, currentProject: string, confirmed: bool): (m: string)
    ensures confirmed ==> |m| == 4
    ensures !confirmed ==> m == ""
  {
    if !confirmed then "" else if p.name == currentProject then "  * " else "    "
  }

  /** One line of the verbose listing: marker, name, and " - " with the
      display name when that is non-empty and differs from the name. */
  function VerboseLine(p: Project, currentProject: string, confirmed: bool): string {
    var dn := DisplayName(p);
    Marker(p, currentProject, confirmed) + p.name + (if |dn| > 0 && dn != p.name then " - " + dn else "")
  }

  /** The verbose lines of `ps`, in order. */
  function VerboseLines(ps: seq<Project>, currentProject: string, confirmed: bool): seq<string> {
    seq(|ps|, k requires 0 <= k < |ps| => VerboseLine(ps[k], currentProject, confirmed))
  }

  /** The names of `ps`, in order. */
  function Names(ps: seq<Project>): seq<string> {
    seq(|ps|, k requires 0 <= k < |ps| => ps[k].name)
  }

  /** The text `RunProjects` hands to `fmt.Println`, for the listing `ps` in
      the order it is printed. */
  function Message(ps: seq<Project>, short: bool, currentProject: string, confirmed: bool,
                   commandName: string, env: Env): string
  {
    if |ps| == 0 then
      (if short then "" else NoProjectsMessage)
    else if |ps| == 1 then
      (if short then ps[0].name
       else "You have one project on this server: " + env.quote(env.displayNameAndNameForProject(ps[0])) + ".")
    else if short then
      Text.Join(Names(ps))
    else
      HeaderLine(commandName) + "\n" + ("\n" + Text.Join(VerboseLines(ps, currentProject, confirmed)))
  }

  /** The order in which `RunProjects` prints `listed`: as listed for fewer
      than two projects, otherwise sorted by name. */
  ghost predicate Arranged(sorted: seq<Project>, listed: seq<Project>) {
    (|listed| < 2 ==> sorted == listed) &&
    (|listed| >= 2 ==> Sorted(sorted) && multiset(sorted) == multiset(listed))
  }

  /** What the loop of lines 174-196 has appended once it has printed `ps`. */
  ghost function Listed(ps: seq<Project>, short: bool, currentProject: string, confirmed: bool): string {
    if short then Text.Join(Names(ps))
    else if |ps| == 0 then ""
    else "\n" + Text.Join(VerboseLines(ps, currentProject, confirmed))
  }

  /** One more turn of the loop appends the entry of `p`: in short mode its
      name, after a line break unless it is the first; in verbose mode a line
      break and its verbose line. */
  lemma ListedStep(ps: seq<Project>, p: Project, short: bool, currentProject: string, confirmed: bool)
    ensures Listed(ps + [p], short, currentProject, confirmed)
         == Listed(ps, short, currentProject, confirmed) +
            (if short then (if |ps| == 0 then "" else "\n") + p.name
             else "\n" + VerboseLine(p, currentProject, confirmed))
  {
    if short {
      assert Names(ps + [p]) == Names(ps) + [p.name];
      if |ps| > 0 {
        Text.JoinSnoc(Names(ps), p.name);
      }
    } else {
      var line := VerboseLine(p, currentProject, confirmed);
      assert VerboseLines(ps + [p], currentProject, confirmed) == VerboseLines(ps, currentProject, confirmed) + [line];
      if |ps| > 0 {
        Text.JoinSnoc(VerboseLines(ps, currentProject, confirmed), line);
      }
    }
  }

  /** Appending the entry of `p` to the message that holds `ps`. */
  lemma AppendEntry(ps: seq<Project>, p: Project, short: bool, currentProject: string, confirmed: bool,
                    header: string, msg: string, entry: string)
    requires msg == header + Listed(ps, short, currentProject, confirmed)
    requires entry == if short then (if |ps| == 0 then "" else "\n") + p.name
                      else "\n" + VerboseLine(p, currentProject, confirmed)
    ensures msg + entry == header + Listed(ps + [p], short, currentProject, confirmed)
  {
    ListedStep(ps, p, short, currentProject, confirmed);
  }

  /** Lines 155-197 of `RunProjects`: the message built from the listing,
      returned with the listing in the order it was printed. */
  method BuildMessage(projects: seq<Project>, short: bool, currentProject: string,
                      currentProjectExists: bool, commandName: string, env: Env)
    returns (msg: string, sorted: seq<Project>)
    ensures Arranged(sorted, projects)
    ensures msg == Message(sorted, short, currentProject, currentProjectExists, commandName, env)
    ensures |projects| == 0 ==> msg == (if short then "" else NoProjectsMessage)
    ensures |projects| == 1 && short ==> msg == projects[0].name
    ensures |projects| == 1 && !short ==>
              msg == "You have one project on this server: " + env.quote(env.displayNameAndNameForProject(projects[0])) + "."
  {
    msg := "";
    if |projects| == 0 {
      if !short {
        msg := msg + NoProjectsMessage;
      }
      sorted := projects;
    } else if |projects| == 1 {
      if short {
        msg := msg + projects[0].name;
      } else {
        msg := msg + "You have one project on this server: " + env.quote(env.displayNameAndNameForProject(projects[0])) + ".";
      }
      sorted := projects;
    } else {
      if !short {
        msg := msg + HeaderLine(commandName) + "\n";
        assert msg == HeaderLine(commandName) + "\n";
      }
      msg, sorted := ListProjects(msg, projects, short, currentProject, currentProjectExists);
      assert |multiset(sorted)| == |multiset(projects)|;
    }
  }

  /** One turn of the loop at lines 174-196: the text appended to `msg` for
      `project`, the `count`-th project (from 1), and the new `asterisk`. */
  method Entry(project: Project, count: int, asterisk: string, short: bool, currentProject: string,
               currentProjectExists: bool)
    returns (entry: string, newAsterisk: string)
    requires !(currentProjectExists && !short) ==> asterisk == ""
    ensures !(currentProjectExists && !short) ==> newAsterisk == ""
    ensures short ==> entry == (if count == 1 then "" else "\n") + project.name
    ensures !short ==> entry == "\n" + VerboseLine(project, currentProject, currentProjectExists)
  {
    newAsterisk := asterisk;
    var displayName := Annotation(project, OpenShiftDisplayName);
    var linebreak := "\n";
    if |displayName| == 0 {
      displayName := Annotation(project, LegacyDisplayName);
    }
    if currentProjectExists && !short {
      newAsterisk := "    ";
      if currentProject == project.name {
        newAsterisk := "  * ";
      }
    }
    if |displayName| > 0 && displayName != project.name && !short {
      entry := "\n" + newAsterisk + project.name + " - " + displayName;
    } else {
      if short && count == 1 {
        linebreak := "";
      }
      entry := linebreak + newAsterisk + project.name;
    }
    assert displayName == DisplayName(project);
    if !short {
      assert newAsterisk == Marker(project, currentProject, currentProjectExists);
    }
  }

  /** Lines 167-168 and 173-196: sort the projects by name, then append one
      entry per project to `msg`. */
  method ListProjects(msg0: string, projects: seq<Project>, short: bool, currentProject: string,
                      currentProjectExists: bool)
    returns (msg: string, sorted: seq<Project>)
    ensures Sorted(sorted) && multiset(sorted) == multiset(projects)
    ensures msg == msg0 + Listed(sorted, short, currentProject, currentProjectExists)
  {
    msg := msg0;
    var asterisk := "";
    var count := 0;
    var a := new Project[|projects|](k requires 0 <= k < |projects| => projects[k]);
    assert a[..] == projects;
    Sort(a);
    ghost var arranged := a[..];
    var i := 0;
    while i < a.Length
      invariant 0 <= i <= a.Length
      invariant a[..] == arranged
      invariant count == i
      invariant !(currentProjectExists && !short) ==> asterisk == ""
      invariant msg == msg0 + Listed(a[..i], short, currentProject, currentProjectExists)
    {
      var project := a[i];
      count := count + 1;
      var entry;
      entry, asterisk := Entry(project, count, asterisk, short, currentProject, currentProjectExists);
      AppendEntry(a[..i], project, short, currentProject, currentProjectExists, msg0, msg, entry);
      msg := msg + entry;
      assert a[..i + 1] == a[..i] + [project];
      i := i + 1;
    }
    assert a[..a.Length] == a[..];
    sorted := a[..];
  }

  // ---------------------------------------------------------------------------
  // Context resolution and the footer

  /** The namespace of the current context, or "" when there is none. */
  function CurrentProject(config: Config): (p: string)
    ensures config.currentContext !in config.contexts ==> p == ""
    ensures config.currentContext in config.contexts ==> p == config.contexts[config.currentContext].namespace
  {
    if config.currentContext in config.contexts then config.contexts[config.currentContext].namespace else ""
  }

  /** The nickname the current context would have been generated with, or ""
      when there is no current context. */
  function DefaultContextName(config: Config, env: Env): (n: string)
    ensures config.currentContext !in config.contexts ==> n == ""
    ensures config.currentContext in config.contexts ==>
              var c := config.contexts[config.currentContext];
              n == env.contextNickname(c.namespace, c.cluster, c.authInfo)
  {
    if config.currentContext in config.contexts then
      var c := config.contexts[config.currentContext];
      env.contextNickname(c.namespace, c.cluster, c.authInfo)
    else ""
  }

  /** The current project is set and `ConfirmProjectAccess` succeeded for it. */
  predicate Confirmed(config: Config, env: Env)
    ensures Confirmed(config, env) ==> config.currentContext in config.contexts
    ensures Confirmed(config, env) <==> |CurrentProject(config)| > 0 && AccessResult(config, env).None?
  {
    |CurrentProject(config)| > 0 && env.confirmProjectAccess(CurrentProject(config)).None?
  }

  /** What `ConfirmProjectAccess` returned, or nothing when it was not called. */
  function AccessResult(config: Config, env: Env): Option<AccessFailure> {
    if |CurrentProject(config)| > 0 then env.confirmProjectAccess(CurrentProject(config)) else None
  }

  function Advisory(currentProject: string, quote: string -> string): string {
    "You do not have rights to view project " + quote(currentProject) + ". Please switch to an existing one.\n"
  }

  /** The short footer, for a context whose name is its generated nickname. */
  function ShortFooter(currentProject: string, host: string, quote: string -> string): string {
    "\nUsing project " + quote(currentProject) + " on server " + quote(host) + ".\n"
  }

  /** The long footer, which also names the context. */
  function LongFooter(currentProject: string, contextName: string, host: string, quote: string -> string): string {
    "\nUsing project " + quote(currentProject) + " from context named " + quote(contextName) + " on server " + quote(host) + ".\n"
  }

  datatype Tail = Tail(advisory: string, footer: string, err: Option<Error>)

  /** Lines 200-216: what follows the listing, given the number of projects
      and the error value that the check at line 202 reads. */
  function Epilogue(count: nat, short: bool, confirmed: bool, checkedErr: Option<AccessFailure>,
                    currentProject: string, contextName: string, defaultContextName: string,
                    host: string, quote: string -> string): (r: Tail)
    ensures r.footer != "" <==> count > 0 && !short && confirmed
    ensures r.footer != "" ==>
              (r.footer == ShortFooter(currentProject, host, quote) <==> contextName == defaultContextName)
    ensures r.footer != "" && contextName != defaultContextName ==>
              r.footer == LongFooter(currentProject, contextName, host, quote)
    ensures r.advisory != "" <==> count > 0 && !short && !confirmed && checkedErr == Some(Forbidden)
    ensures r.advisory != "" ==> r.advisory == Advisory(currentProject, quote)
    ensures r.err.Some? <==> count > 0 && !short && !confirmed && checkedErr.Some?
    ensures r.err.Some? ==> r.err == Some(AccessError(checkedErr.value))
  {
    if count > 0 && !short then
      if !confirmed then
        Tail(if checkedErr == Some(Forbidden) then Advisory(currentProject, quote) else "",
             "",
             if checkedErr.Some? then Some(AccessError(checkedErr.value)) else None)
      else if contextName == defaultContextName then
        Tail("", ShortFooter(currentProject, host, quote), None)
      else
        Tail("", LongFooter(currentProject, contextName, host, quote), None)
    else
      Tail("", "", None)
  }

  /** Lines 152-219, once the current project has been resolved: list the
      projects, build the message, and decide what follows it. */
  method Render(o: Options, env: Env, currentProject: string, currentProjectExists: bool,
                currentProjectErr: Option<AccessFailure>, defaultContextName: string)
    returns (r: Report, projects: seq<Project>)
    ensures env.getProjects.Failure? ==>
              r == Report(None, "", "", Some(EnumerationError(env.getProjects.error))) && projects == []
    ensures env.getProjects.Success? ==>
              Arranged(projects, env.getProjects.value) &&
              r.msg == Some(Message(projects, o.displayShort, currentProject, currentProjectExists, o.commandName, env)) &&
              (var t := Epilogue(|projects|, o.displayShort, currentProjectExists, currentProjectErr,
                                 currentProject, o.config.currentContext, defaultContextName, o.host, env.quote);
               r.advisory == t.advisory && r.footer == t.footer && r.err == t.err)
  {
    match env.getProjects
    case Failure(e) =>
      r, projects := Report(None, "", "", Some(EnumerationError(e))), [];
    case Success(listed) =>
      var msg;
      msg, projects := BuildMessage(listed, o.displayShort, currentProject, currentProjectExists, o.commandName, env);
      assert |projects| == |listed| by {
        if |listed| >= 2 {
          assert |multiset(projects)| == |multiset(listed)|;
        }
      }
      var t := Epilogue(|projects|, o.displayShort, currentProjectExists, currentProjectErr,
                        currentProject, o.config.currentContext, defaultContextName, o.host, env.quote);
      r := Report(Some(msg), t.advisory, t.footer, t.err);
  }

  /** `RunProjects` as written. The `:=` at line 142 declares a second
      `currentProjectErr`, so the one read at lines 202 and 205 stays nil: the
      advisory is never printed and no access error is ever returned. */
  method RunProjects(o: Options, env: Env) returns (r: Report, projects: seq<Project>)
    ensures env.getProjects.Failure? ==>
              r == Report(None, "", "", Some(EnumerationError(env.getProjects.error)))
    ensures env.getProjects.Success? ==>
              Arranged(projects, env.getProjects.value) &&
              r.msg == Some(Message(projects, o.displayShort, CurrentProject(o.config),
                                    Confirmed(o.config, env), o.commandName, env))
    ensures env.getProjects.Success? ==> r.advisory == "" && r.err == None
    ensures r.footer ==
              if env.getProjects.Success? && |projects| > 0 && !o.displayShort && Confirmed(o.config, env) then
                (if o.config.currentContext == DefaultContextName(o.config, env)
                 then ShortFooter(CurrentProject(o.config), o.host, env.quote)
                 else LongFooter(CurrentProject(o.config), o.config.currentContext, o.host, env.quote))
              else ""
  {
    var config := o.config;
    var currentProject := CurrentProject(config);
    var currentProjectExists := false;
    var currentProjectErr: Option<AccessFailure> := None;
    if |currentProject| > 0 {
      var currentProjectErr := env.confirmProjectAccess(currentProject);
      if currentProjectErr.None? {
        currentProjectExists := true;
      }
    }
    var defaultContextName := DefaultContextName(config, env);
    r, projects := Render(o, env, currentProject, currentProjectExists, currentProjectErr, defaultContextName);
  }

  /** `RunProjects` with line 142 assigning the outer `currentProjectErr`: an
      inaccessible current project ends a verbose, non-empty listing with its
      error, and with the advisory when the error is Forbidden. */
  method RunProjectsCorrected(o: Options, env: Env) returns (r: Report, projects: seq<Project>)
    ensures env.getProjects.Failure? ==>
              r == Report(None, "", "", Some(EnumerationError(env.getProjects.error)))
    ensures env.getProjects.Success? ==>
              Arranged(projects, env.getProjects.value) &&
              r.msg == Some(Message(projects, o.displayShort, CurrentProject(o.config),
                                    Confirmed(o.config, env), o.commandName, env))
    ensures env.getProjects.Success? && |projects| > 0 && !o.displayShort && !Confirmed(o.config, env) ==>
              r.footer == "" &&
              r.err == (if AccessResult(o.config, env).Some? then Some(AccessError(AccessResult(o.config, env).value)) else None) &&
              r.advisory == (if AccessResult(o.config, env) == Some(Forbidden) then Advisory(CurrentProject(o.config), env.quote) else "")
    ensures env.getProjects.Success? && |projects| > 0 && !o.displayShort && Confirmed(o.config, env) ==>
              r.advisory == "" && r.err == None &&
              r.footer == (if o.config.currentContext == DefaultContextName(o.config, env)
                           then ShortFooter(CurrentProject(o.config), o.host, env.quote)
                           else LongFooter(CurrentProject(o.config), o.config.currentContext, o.host, env.quote))
    ensures env.getProjects.Success? && (|projects| == 0 || o.displayShort) ==>
              r.advisory == "" && r.footer == "" && r.err == None
  {
    var config := o.config;
    var currentProject := CurrentProject(config);
    var currentProjectExists := false;
    var currentProjectErr: Option<AccessFailure> := None;
    if |currentProject| > 0 {
      currentProjectErr := env.confirmProjectAccess(currentProject);
      if currentProjectErr.None? {
        currentProjectExists := true;
      }
    }
    var defaultContextName := DefaultContextName(config, env);
    r, projects := Render(o, env, currentProject, currentProjectExists, currentProjectErr, defaultContextName);
  }

  // ---------------------------------------------------------------------------
  // Properties of the printed text

  /** In short mode every printed line is exactly one project name, in the
      printed order: no header, no marker, no display name, no blank line. */
  lemma ShortMessageLines(ps: seq<Project>, currentProject: string, confirmed: bool, commandName: string, env: Env)
    requires |ps| >= 1
    requires forall k :: 0 <= k < |ps| ==> Text.SingleLine(ps[k].name)
    ensures Text.Split(Message(ps, true, currentProject, confirmed, commandName, env)) == Names(ps)
  {
    var msg := Message(ps, true, currentProject, confirmed, commandName, env);
    if |ps| == 1 {
      assert msg == ps[0].name;
      assert Names(ps) == [ps[0].name];
      Text.SplitSingle(ps[0].name);
    } else {
      assert msg == Text.Join(Names(ps));
      Text.SplitJoin(Names(ps));
    }
  }

  /** In verbose mode with two or more projects the text is the header line,
      an empty line, and one line per project in the printed order. */
  lemma VerboseMessageLines(ps: seq<Project>, currentProject: string, confirmed: bool, commandName: string, env: Env)
    requires |ps| >= 2
    requires Text.SingleLine(commandName)
    requires forall k :: 0 <= k < |ps| ==> Text.SingleLine(ps[k].name) && Text.SingleLine(DisplayName(ps[k]))
    ensures Text.Split(Message(ps, false, currentProject, confirmed, commandName, env))
              == [HeaderLine(commandName), ""] + VerboseLines(ps, currentProject, confirmed)
  {
    var ls := VerboseLines(ps, currentProject, confirmed);
    forall k | 0 <= k < |ls|
      ensures Text.SingleLine(ls[k])
    {
      var p := ps[k];
      var dn := DisplayName(p);
      var m := Marker(p, currentProject, confirmed);
      assert Text.SingleLine(m);
      assert Text.SingleLine(" - " + dn);
    }
    HeaderSingleLine(commandName);
    assert Message(ps, false, currentProject, confirmed, commandName, env)
        == HeaderLine(commandName) + "\n" + ("\n" + Text.Join(ls));
    Text.SplitHeaded(HeaderLine(commandName), ls);
  }

  /** With the current project confirmed, the line of project k carries the
      "  * " marker exactly when k is the current project; every other line
      starts with four spaces. */
  lemma MarkedLine(ps: seq<Project>, k: int, currentProject: string, commandName: string, env: Env)
    requires |ps| >= 2 && 0 <= k < |ps|
    requires Text.SingleLine(commandName)
    requires forall i :: 0 <= i < |ps| ==> Text.SingleLine(ps[i].name) && Text.SingleLine(DisplayName(ps[i]))
    ensures var lines := Text.Split(Message(ps, false, currentProject, true, commandName, env));
            |lines| == |ps| + 2 && |lines[k + 2]| >= 4 &&
            (lines[k + 2][..4] == "  * " <==> ps[k].name == currentProject) &&
            (ps[k].name != currentProject ==> lines[k + 2][..4] == "    ")
  {
    VerboseMessageLines(ps, currentProject, true, commandName, env);
    var line := VerboseLine(ps[k], currentProject, true);
    var m := Marker(ps[k], currentProject, true);
    assert line[..4] == m;
  }

  /** Without a confirmed current project no line carries a marker: each
      starts with its project's name. */
  lemma UnmarkedLine(ps: seq<Project>, k: int, currentProject: string, commandName: string, env: Env)
    requires |ps| >= 2 && 0 <= k < |ps|
    requires Text.SingleLine(commandName)
    requires forall i :: 0 <= i < |ps| ==> Text.SingleLine(ps[i].name) && Text.SingleLine(DisplayName(ps[i]))
    ensures var lines := Text.Split(Message(ps, false, currentProject, false, commandName, env));
            |lines| == |ps| + 2 && |lines[k + 2]| >= |ps[k].name| &&
            lines[k + 2][..|ps[k].name|] == ps[k].name
  {
    VerboseMessageLines(ps, currentProject, false, commandName, env);
    var line := VerboseLine(ps[k], currentProject, false);
    assert line[..|ps[k].name|] == ps[k].name;
  }

  lemma AbcSorted()
    ensures Sorted([Project("a", map[]), Project("b", map[]), Project("c", map[])])
    ensures UniqueNames([Project("a", map[]), Project("b", map[]), Project("c", map[])])
  {
    assert Text.Less("a", "b") && Text.Less("b", "c") && Text.Less("a", "c");
  }

  /** Three projects listed as c, a, b are printed as a, b, c, whatever
      algorithm the sort uses. */
  lemma ThreeProjectsOrder(sorted: seq<Project>)
    requires Sorted(sorted)
    requires multiset(sorted) == multiset([Project("c", map[]), Project("a", map[]), Project("b", map[])])
    ensures sorted == [Project("a", map[]), Project("b", map[]), Project("c", map[])]
  {
    var expected := [Project("a", map[]), Project("b", map[]), Project("c", map[])];
    assert multiset(expected) == multiset([Project("c", map[]), Project("a", map[]), Project("b", map[])]);
    AbcSorted();
    SortedOrderUnique(expected, sorted);
  }

  /** With b current and confirmed, only the line of b is marked. */
  lemma ThreeProjectsMarkers()
    ensures VerboseLines([Project("a", map[]), Project("b", map[]), Project("c", map[])], "b", true)
            == ["    a", "  * b", "    c"]
  {
    var expected := [Project("a", map[]), Project("b", map[]), Project("c", map[])];
    assert "a" != "b" && "c" != "b";
    forall k | 0 <= k < 3
      ensures DisplayName(expected[k]) == ""
    {
      assert expected[k].annotations == map[];
    }
    assert VerboseLine(expected[0], "b", true) == "    a";
    assert VerboseLine(expected[1], "b", true) == "  * b";
    assert VerboseLine(expected[2], "b", true) == "    c";
  }

  /** The input that shows the shadowed error at line 142: the current
      project "dev" exists but is forbidden, one project is listed, verbose
      mode. The error that reaches line 202 as written is nil, so nothing
      follows the listing and nil is returned; with the error as intended
      the advisory is printed and the error returned. */
  lemma ForbiddenProjectExample(quote: string -> string)
    ensures Epilogue(1, false, false, None, "dev", "ctx", "ctx", "host", quote) == Tail("", "", None)
    ensures Epilogue(1, false, false, Some(Forbidden), "dev", "ctx", "ctx", "host", quote)
            == Tail(Advisory("dev", quote), "", Some(AccessError(Forbidden)))
  {
  }
}
