/** The deployment-platform client of coolify/coolify.py: how it picks a server and a
    project, records a created project in the descriptor, and in which order it takes
    the steps of connecting a repository. Every API call is a parameter: the status
    code it answers with (None when it raises) and the identifiers it hands back. */
module Coolify {
  import opened Wrappers
  import opened Text
  import opened Documents
  import opened Keys
  import opened YamlStore
  import opened Console
  import opened Cli

  /** The client's success rule: a status of 200 or 201 (and no exception). */
  predicate IsAccepted(status: Option<int>) {
    status.Some? && (status.value == 200 || status.value == 201)
  }

  /** A project or a server as the list calls report it. */
  datatype Resource = Resource(name: string, uuid: string)

  /** The body of the application request `create_git_resource` sends. */
  datatype ApplicationPayload = ApplicationPayload(
    projectUuid: string, serverUuid: string, environmentName: string, privateKeyUuid: string,
    gitRepository: string, gitBranch: string, buildPack: string, portsExposes: string,
    gitCommitSha: string)

  /** The calls the client sends that create something on the platform. */
  datatype CoolifyRequest =
    | CreateProjectCall(projectName: string, projectDescription: string)
    | CreatePrivateKey(keyName: string)
    | CreateApplication(payload: ApplicationPayload)

  // ----- answers typed at the prompts -----

  /** A yes/no question "use the default?" followed, on no, by a typed value. */
  function DefaultOrTyped(input: seq<string>, default: string): Option<Answered<string>> {
    match YesNoAnswer(input)
    case None => None
    case Some(a) => if a.value then Some(Answered(default, a.rest)) else LineAnswer(a.rest)
  }

  /** Answering y takes the default; answering n takes the next line typed. */
  lemma DefaultOrTypedAnswers(default: string, typed: string, rest: seq<string>)
    ensures DefaultOrTyped(["y"] + rest, default) == Some(Answered(default, rest))
    ensures DefaultOrTyped(["n", typed] + rest, default) == Some(Answered(typed, rest))
  {
    YesOrNoAnswers("y");
    YesOrNoAnswers("n");
    assert FirstYesOrNo(["y"] + rest) == Some(0);
    assert (["y"] + rest)[1..] == rest;
    assert FirstYesOrNo(["n", typed] + rest) == Some(0);
    assert (["n", typed] + rest)[1..] == [typed] + rest;
  }

  /** Asks "use the default?" and, on no, reads a line; end of input raises. */
  method PromptDefaultOrTyped(session: Session, default: string) returns (r: Outcome<string>)
    modifies session
    ensures session.environ == old(session.environ)
    ensures DefaultOrTyped(old(session.input), default) ==
      if r.Returned? then Some(Answered(r.value, session.input)) else None
    ensures r.Raised? ==> session.input == []
  {
    var useDefault := YesNoPrompt(session);
    if useDefault.Raised? {
      return Raised;
    }
    if useDefault.value {
      return Returned(default);
    }
    var line := session.ReadLine();
    if line.None? {
      return Raised;
    }
    r := Returned(line.value);
  }

  // ----- get_server_uuid and get_project_uuid -----

  /** `get_server_uuid` on the lines still to be typed: no server gives None and one
      server gives its uuid, both without asking; with more, the chosen server's uuid. */
  function ServerChoice(input: seq<string>, servers: seq<Resource>): (a: Option<Answered<Option<string>>>)
    ensures |servers| == 0 ==> a == Some(Answered(None, input))
    ensures |servers| == 1 ==> a == Some(Answered(Some(servers[0].uuid), input))
    ensures a.Some? && |servers| > 0 ==>
      exists i :: 0 <= i < |servers| && a.value.value == Some(servers[i].uuid)
  {
    if |servers| == 0 then Some(Answered(None, input))
    else if |servers| == 1 then Some(Answered(Some(servers[0].uuid), input))
    else match ChoiceAnswer(input, |servers|)
      case Some(c) => Some(Answered(Some(servers[c.value].uuid), c.rest))
      case None => None
  }

  /** With several servers, typing a server's menu number picks that server. */
  lemma ServerNumberSelects(servers: seq<Resource>, i: nat, rest: seq<string>)
    requires |servers| > 1 && i < |servers|
    ensures ServerChoice([NatToString(i)] + rest, servers) == Some(Answered(Some(servers[i].uuid), rest))
  {
    ShownNumberSelects(i, |servers|, rest);
    assert ([NatToString(i)] + rest)[1..] == rest;
  }

  /** `get_project_uuid`: the chosen project's uuid. There is no guard for an empty
      list, so the menu then accepts nothing. */
  function ProjectChoice(input: seq<string>, projects: seq<Resource>): (a: Option<Answered<string>>)
    ensures a.Some? ==> exists i :: 0 <= i < |projects| && a.value.value == projects[i].uuid
  {
    match ChoiceAnswer(input, |projects|)
    case Some(c) => Some(Answered(projects[c.value].uuid, c.rest))
    case None => None
  }

  /** With no project the prompt repeats until input ends, whatever is typed. */
  lemma NoProjectNoChoice(input: seq<string>)
    ensures ProjectChoice(input, []) == None
  {
    EmptyMenuAcceptsNothing(input);
  }

  /** Typing a project's menu number picks that project. */
  lemma ProjectNumberSelects(projects: seq<Resource>, i: nat, rest: seq<string>)
    requires i < |projects|
    ensures ProjectChoice([NatToString(i)] + rest, projects) == Some(Answered(projects[i].uuid, rest))
  {
    ShownNumberSelects(i, |projects|, rest);
    assert ([NatToString(i)] + rest)[1..] == rest;
  }

  method GetServerUuid(session: Session, servers: seq<Resource>) returns (r: Outcome<Option<string>>)
    modifies session
    ensures session.environ == old(session.environ)
    ensures ServerChoice(old(session.input), servers) ==
      if r.Returned? then Some(Answered(r.value, session.input)) else None
    ensures r.Raised? ==> session.input == []
  {
    if |servers| == 0 {
      return Returned(None);
    }
    if |servers| == 1 {
      return Returned(Some(servers[0].uuid));
    }
    var names := seq(|servers|, i requires 0 <= i < |servers| => servers[i].name);
    var index := GetUserChoice(session, names);
    if index.Raised? {
      return Raised;
    }
    r := Returned(Some(servers[index.value].uuid));
  }

  method GetProjectUuid(session: Session, projects: seq<Resource>) returns (r: Outcome<string>)
    modifies session
    ensures session.environ == old(session.environ)
    ensures ProjectChoice(old(session.input), projects) ==
      if r.Returned? then Some(Answered(r.value, session.input)) else None
    ensures r.Raised? ==> session.input == []
  {
    var names := seq(|projects|, i requires 0 <= i < |projects| => projects[i].name);
    var index := GetUserChoice(session, names);
    if index.Raised? {
      return Raised;
    }
    r := Returned(projects[index.value].uuid);
  }

  // ----- get_github_url -----

  /** `get_github_url`: on yes, one of the premade repositories by menu number; on no,
      a typed URL. */
  function RepoUrlChoice(input: seq<string>): (a: Option<Answered<string>>)
    ensures a.Some? ==> a.value.value in GitHubRepoUrls || a.value.value in input
  {
    match YesNoAnswer(input)
    case None => None
    case Some(a) =>
      if a.value then
        match ChoiceAnswer(a.rest, |GitHubRepoUrls|)
        case Some(c) => Some(Answered(GitHubRepoUrls[c.value], c.rest))
        case None => None
      else LineAnswer(a.rest)
  }

  method GetGithubUrl(session: Session) returns (r: Outcome<string>)
    modifies session
    ensures session.environ == old(session.environ)
    ensures RepoUrlChoice(old(session.input)) ==
      if r.Returned? then Some(Answered(r.value, session.input)) else None
    ensures r.Raised? ==> session.input == []
  {
    var usePremade := YesNoPrompt(session);
    if usePremade.Raised? {
      return Raised;
    }
    if usePremade.value {
      var index := GetUserChoice(session, GitHubRepoUrls);
      if index.Raised? {
        return Raised;
      }
      return Returned(GitHubRepoUrls[index.value]);
    }
    var line := session.ReadLine();
    if line.None? {
      return Raised;
    }
    r := Returned(line.value);
  }

  // ----- the project record -----

  /** The name and description a project is created with. */
  datatype ProjectInfo = ProjectInfo(name: string, description: string)

  /** How `create_project` settles the name and the description: a given one is used,
      a missing one is asked for (default or typed). */
  function ProjectDetails(input: seq<string>, name: Option<string>, description: Option<string>,
                          randomId: string): Option<Answered<ProjectInfo>>
  {
    var named := if name.Some? then Some(Answered(name.value, input))
      else DefaultOrTyped(input, DefaultCoolifyProjectName + randomId);
    match named
    case None => None
    case Some(n) =>
      var described := if description.Some? then Some(Answered(description.value, n.rest))
        else DefaultOrTyped(n.rest, DefaultCoolifyProjectDescription);
      match described
      case None => None
      case Some(d) => Some(Answered(ProjectInfo(n.value, d.value), d.rest))
  }

  /** Given both, nothing is asked; accepting both defaults takes two answers. */
  lemma ProjectDetailsAnswers(input: seq<string>, name: string, description: string, randomId: string)
    ensures ProjectDetails(input, Some(name), Some(description), randomId) ==
      Some(Answered(ProjectInfo(name, description), input))
    ensures ProjectDetails(["y", "y"] + input, None, None, randomId) ==
      Some(Answered(ProjectInfo(DefaultCoolifyProjectName + randomId, DefaultCoolifyProjectDescription), input))
  {
    DefaultOrTypedAnswers(DefaultCoolifyProjectName + randomId, "", ["y"] + input);
    assert ["y", "y"] + input == ["y"] + (["y"] + input);
    DefaultOrTypedAnswers(DefaultCoolifyProjectDescription, "", input);
  }

  /** The entry `create_project` appends under `coolify_configs.projects`. */
  function ProjectRecord(info: ProjectInfo, uuid: string): (r: Value)
    ensures r.Node? && r.fields.Keys == {NameKey, DescriptionKey, UuidKey}
    ensures r.fields[NameKey] == Leaf(info.name)
    ensures r.fields[DescriptionKey] == Leaf(info.description)
    ensures r.fields[UuidKey] == Leaf(uuid)
  {
    Node(map[NameKey := Leaf(info.name), DescriptionKey := Leaf(info.description), UuidKey := Leaf(uuid)])
  }

  /** The dotted path of the project list. */
  function ProjectsPath(): string {
    ListToDotNotation([CoolifyConfigsKey, ProjectsKey])
  }

  lemma ProjectsPathSplits()
    ensures SplitDots(ProjectsPath()) == [CoolifyConfigsKey, ProjectsKey]
  {
    assert DotFree(CoolifyConfigsKey) by {
      assert CoolifyConfigsKey == ['c', 'o', 'o', 'l', 'i', 'f', 'y', '_', 'c', 'o', 'n', 'f', 'i', 'g', 's'];
    }
    assert DotFree(ProjectsKey) by {
      assert ProjectsKey == ['p', 'r', 'o', 'j', 'e', 'c', 't', 's'];
    }
    SplitJoined([CoolifyConfigsKey, ProjectsKey]);
  }

  /** The descriptor after the record is appended, or as it was when the append fails. */
  function RecordedProject(file: Option<Doc>, record: Value): Option<Doc> {
    match AppendAt(Loaded(file), [CoolifyConfigsKey, ProjectsKey], [record])
    case Some(d) => Some(d)
    case None => file
  }

  /** The append fails only when `coolify_configs` is not a mapping or its `projects`
      is not a list; otherwise the record ends the project list. */
  lemma RecordedProjectAppends(d: Doc, record: Value)
    ensures AppendAt(d, [CoolifyConfigsKey, ProjectsKey], [record]).None? <==>
      CoolifyConfigsKey in d &&
      (!d[CoolifyConfigsKey].Node? ||
       (ProjectsKey in d[CoolifyConfigsKey].fields && !d[CoolifyConfigsKey].fields[ProjectsKey].List?))
    ensures AppendAt(d, [CoolifyConfigsKey, ProjectsKey], [record]).Some? ==>
      LookupPath(AppendAt(d, [CoolifyConfigsKey, ProjectsKey], [record]).value, [CoolifyConfigsKey, ProjectsKey])
        == Some(List(ListAt(d, [CoolifyConfigsKey, ProjectsKey]) + [record]))
  {
    assert [CoolifyConfigsKey, ProjectsKey][1..] == [ProjectsKey];
    if AppendAt(d, [CoolifyConfigsKey, ProjectsKey], [record]).Some? {
      AppendAtExtends(d, [CoolifyConfigsKey, ProjectsKey], [record]);
    }
  }

  /** The three prompts `connect_github` runs before it creates the deploy key: the
      repository URL, the new repository's name and the project; end of input raises
      EOFError, which escapes. */
  method AskPlan(session: Session, projects: seq<Resource>, repoId: string) returns (r: Option<Plan>)
    modifies session
    ensures session.environ == old(session.environ)
    ensures ConnectionPlan(old(session.input), projects, repoId) ==
      if r.Some? then Some(Answered(r.value, session.input)) else None
    ensures r.None? ==> session.input == []
  {
    var url := GetGithubUrl(session);
    if url.Raised? {
      return None;
    }
    var repoName := PromptDefaultOrTyped(session, DefaultNewGithubRepoName + repoId);
    if repoName.Raised? {
      return None;
    }
    var projectUuid := GetProjectUuid(session, projects);
    if projectUuid.Raised? {
      return None;
    }
    r := Some(Plan(url.value, repoName.value, projectUuid.value));
  }

  /** The client, bound to the project's descriptor. `keyUuid` is the uuid of the
      deploy key it created last (unset until one is created) and `requests` logs the
      calls that create something on the platform. */
  class CoolifyClient {
    const apiKey: string
    const config: YamlParser
    var keyUuid: Option<string>
    var requests: seq<CoolifyRequest>

    constructor (apiKey: string, config: YamlParser)
      ensures this.apiKey == apiKey && this.config == config
      ensures keyUuid == None && requests == []
    {
      this.apiKey := apiKey;
      this.config := config;
      keyUuid := None;
      requests := [];
    }

    /** `test_connection`: None without a project root; otherwise whether the server
        list answered 200 or 201. */
    method TestConnection(status: Option<int>) returns (r: Option<bool>)
      ensures r.None? <==> config.file.None?
      ensures r.Some? ==> (r.value <==> status == Some(200) || status == Some(201))
    {
      if config.file.None? {
        return None;
      }
      r := Some(IsAccepted(status));
    }

    /** `create_project`. Without a root it returns None. A missing name or description
        is asked for first (end of input raises). The create call answers `status`; on
        200 or 201 the record is appended to `coolify_configs.projects` and the result
        is True whether or not the append succeeded; otherwise False. */
    method CreateProject(session: Session, name: Option<string>, description: Option<string>,
                         randomId: string, status: Option<int>, uuid: string)
      returns (r: Outcome<Option<bool>>)
      modifies this, config, session
      ensures session.environ == old(session.environ) && keyUuid == old(keyUuid)
      ensures old(config.file).None? ==>
        && r == Returned(None) && session.input == old(session.input)
        && config.file == old(config.file) && requests == old(requests)
      ensures old(config.file).Some? ==>
        match ProjectDetails(old(session.input), name, description, randomId)
        case None =>
          r == Raised && session.input == [] && config.file == old(config.file) && requests == old(requests)
        case Some(details) =>
          && session.input == details.rest
          && r == Returned(Some(IsAccepted(status)))
          && requests == old(requests) +
               (if status.Some? then [CreateProjectCall(details.value.name, details.value.description)] else [])
          && config.file == if IsAccepted(status)
               then RecordedProject(old(config.file), ProjectRecord(details.value, uuid)) else old(config.file)
    {
      if config.file.None? {
        return Returned(None);
      }
      var projectName: string;
      if name.Some? {
        projectName := name.value;
      } else {
        var typed := PromptDefaultOrTyped(session, DefaultCoolifyProjectName + randomId);
        if typed.Raised? {
          return Raised;
        }
        projectName := typed.value;
      }
      var projectDescription: string;
      if description.Some? {
        projectDescription := description.value;
      } else {
        var typed := PromptDefaultOrTyped(session, DefaultCoolifyProjectDescription);
        if typed.Raised? {
          return Raised;
        }
        projectDescription := typed.value;
      }
      if status.None? {
        return Returned(Some(false));
      }
      requests := requests + [CreateProjectCall(projectName, projectDescription)];
      if !IsAccepted(status) {
        return Returned(Some(false));
      }
      ProjectsPathSplits();
      var recorded := config.AppendNested(ProjectsPath(),
        [ProjectRecord(ProjectInfo(projectName, projectDescription), uuid)]);
      r := Returned(Some(true));
    }

    /** `create_deploy_key`: the key-creation call answers `status`; on 200 or 201 the
        returned uuid is kept and the public key handed back, otherwise None. */
    method CreateDeployKey(randomId: string, status: Option<int>, createdUuid: string, publicKey: string)
      returns (r: Option<string>)
      modifies this
      ensures requests == old(requests) + (if status.Some? then [CreatePrivateKey(DefaultDeployKeyPrefix + randomId)] else [])
      ensures keyUuid == if IsAccepted(status) then Some(createdUuid) else old(keyUuid)
      ensures r == if IsAccepted(status) then Some(publicKey) else None
    {
      if status.None? {
        return None;
      }
      requests := requests + [CreatePrivateKey(DefaultDeployKeyPrefix + randomId)];
      if !IsAccepted(status) {
        return None;
      }
      keyUuid := Some(createdUuid);
      r := Some(publicKey);
    }

    /** `create_git_resource`: without a deploy key the attribute lookup raises inside
        the `try` and the result is False with nothing sent; otherwise the application
        request with branch "main", build pack "dockerfile", port "3000" and commit
        "HEAD" is sent and the result is whether it answered 200 or 201. */
    method CreateGitResource(projectUuid: string, serverUuid: string, sourceUrl: string, status: Option<int>)
      returns (ok: bool)
      modifies this
      ensures keyUuid == old(keyUuid)
      ensures ok <==> keyUuid.Some? && IsAccepted(status)
      ensures requests == old(requests) +
        if keyUuid.Some? && status.Some? then
          [CreateApplication(ApplicationPayload(projectUuid, serverUuid, DefaultCoolifyEnvironmentName,
             keyUuid.value, sourceUrl, "main", "dockerfile", "3000", "HEAD"))]
        else []
    {
      if keyUuid.None? || status.None? {
        return false;
      }
      var payload := ApplicationPayload(projectUuid, serverUuid, DefaultCoolifyEnvironmentName,
        keyUuid.value, sourceUrl, "main", "dockerfile", "3000", "HEAD");
      requests := requests + [CreateApplication(payload)];
      ok := IsAccepted(status);
    }

    /** `connect_github` up to its guard: the repository URL, the new repository's
        name and the project are asked for, the deploy key is created, and only then
        is the server picked and the guard applied. Returns the chosen values when the
        GitHub steps would go ahead, None when the guard stops them. */
    method ConnectGithub(session: Session, projects: seq<Resource>, servers: seq<Resource>,
                         repoId: string, keyId: string, keyStatus: Option<int>,
                         createdUuid: string, publicKey: string)
      returns (r: Outcome<Option<Connection>>)
      modifies this, session
      ensures session.environ == old(session.environ)
      ensures config.file.None? ==>
        r == Returned(None) && session.input == old(session.input)
        && keyUuid == old(keyUuid) && requests == old(requests)
      ensures config.file.Some? ==>
        match ConnectionPlan(old(session.input), projects, repoId)
        case None =>
          r == Raised && session.input == [] && keyUuid == old(keyUuid) && requests == old(requests)
        case Some(plan) =>
          // the deploy key is created before the server is chosen and the guard applied
          && requests == old(requests) +
               (if keyStatus.Some? then [CreatePrivateKey(DefaultDeployKeyPrefix + keyId)] else [])
          && keyUuid == (if IsAccepted(keyStatus) then Some(createdUuid) else old(keyUuid))
          && match ServerChoice(plan.rest, servers)
             case None => r == Raised && session.input == []
             case Some(server) =>
               && session.input == server.rest
               && r == Returned(if server.value.None? then None
                    else Some(Connection(plan.value, server.value.value,
                                         if IsAccepted(keyStatus) then Some(publicKey) else None)))
    {
      if config.file.None? {
        return Returned(None);
      }
      var plan := AskPlan(session, projects, repoId);
      if plan.None? {
        return Raised;
      }
      var pubKey := CreateDeployKey(keyId, keyStatus, createdUuid, publicKey);
      var serverUuid := GetServerUuid(session, servers);
      if serverUuid.Raised? {
        return Raised;
      }
      if serverUuid.value.None? {
        return Returned(None);
      }
      r := Returned(Some(Connection(plan.value, serverUuid.value.value, pubKey)));
    }
  }

  /** What `connect_github` has asked for before it creates the deploy key. */
  datatype Plan = Plan(repoUrl: string, repoName: string, projectUuid: string)

  /** Everything the GitHub steps go on with. */
  datatype Connection = Connection(plan: Plan, serverUuid: string, publicKey: Option<string>)

  /** The URL, the repository name and the project, from the lines typed. */
  function ConnectionPlan(input: seq<string>, projects: seq<Resource>, repoId: string): Option<Answered<Plan>> {
    match RepoUrlChoice(input)
    case None => None
    case Some(url) =>
      match DefaultOrTyped(url.rest, DefaultNewGithubRepoName + repoId)
      case None => None
      case Some(name) =>
        match ProjectChoice(name.rest, projects)
        case None => None
        case Some(project) => Some(Answered(Plan(url.value, name.value, project.value), project.rest))
  }

  /** With no project on the platform, connecting never reaches the deploy key: the
      project prompt runs until input ends. */
  lemma NoProjectNoConnection(input: seq<string>, repoId: string)
    ensures ConnectionPlan(input, [], repoId) == None
  {
    match RepoUrlChoice(input)
    case None =>
    case Some(url) =>
      match DefaultOrTyped(url.rest, DefaultNewGithubRepoName + repoId)
      case None =>
      case Some(name) => NoProjectNoChoice(name.rest);
  }
}
