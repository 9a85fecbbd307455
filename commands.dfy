/** The command handlers of main.py: which handler a command line reaches, and in
    which order each handler checks for a project and touches the secrets file, the
    descriptor and the hosting provider. */
module Commands {
  import opened Wrappers
  import opened Text
  import opened Documents
  import opened Keys
  import opened YamlStore
  import opened Console
  import opened Cli
  import opened Provider

  // ----- dispatch -----

  datatype Handler =
    | InitProject | VpsSynth | VpsUp | VpsDown | VpsStatus | CoolifyInstall | DeleteProject
    | NoHandler

  /** `main`'s dispatch on the command and, for `vps` and `coolify`, the subcommand. */
  function Dispatch(command: string, sub: string): Handler {
    if command == "init" then InitProject
    else if command == "vps" then
      if sub == "synth" then VpsSynth
      else if sub == "up" then VpsUp
      else if sub == "down" then VpsDown
      else if sub == "status" then VpsStatus
      else NoHandler
    else if command == "coolify" then
      if sub == "install" then CoolifyInstall else NoHandler
    else if command == "delete" then DeleteProject
    else NoHandler
  }

  /** The command line that reaches a handler; `init` and `delete` read no subcommand. */
  function CommandLine(h: Handler): (line: (string, string))
    requires h != NoHandler
  {
    match h
    case InitProject => ("init", "")
    case VpsSynth => ("vps", "synth")
    case VpsUp => ("vps", "up")
    case VpsDown => ("vps", "down")
    case VpsStatus => ("vps", "status")
    case CoolifyInstall => ("coolify", "install")
    case DeleteProject => ("delete", "")
  }

  predicate TakesSubcommand(h: Handler) {
    !(h.InitProject? || h.DeleteProject? || h.NoHandler?)
  }

  /** Every handler is reached from its own command line, and only from it: the
      command always decides, the subcommand decides where one is read. */
  lemma DispatchReachesExactlyOne(command: string, sub: string, h: Handler)
    requires h != NoHandler
    ensures Dispatch(CommandLine(h).0, CommandLine(h).1) == h
    ensures Dispatch(command, sub) == h <==>
      command == CommandLine(h).0 && (TakesSubcommand(h) ==> sub == CommandLine(h).1)
  {
  }

  /** Under `coolify` only `install` reaches a handler. */
  lemma CoolifyHandlesOnlyInstall(sub: string)
    ensures Dispatch("coolify", sub) != NoHandler <==> sub == "install"
  {
  }

  // ----- init -----

  /** The project name `init` uses: `--name` when given and non-empty, else the last
      component of the absolute `--path`. */
  function InitName(name: Option<string>, absPath: string): (project: string)
    ensures name.Some? && name.value != "" ==> project == name.value
    ensures (name.None? || name.value == "") ==>
      && (forall i :: 0 <= i < |project| ==> project[i] != '/')
      && |project| <= |absPath|
      && absPath == absPath[..|absPath| - |project|] + project
  {
    if name.Some? && name.value != "" then name.value else Basename(absPath)
  }

  /** `handle_init`: the secrets file and the descriptor of the project are created
      when missing, then the name and the creation time are appended. */
  method HandleInit(config: YamlParser, env: EnvFile, session: Session, name: Option<string>, absPath: string,
                    time: string)
    modifies config, env, session
    ensures env.lines == if old(env.lines).Some? then old(env.lines) else Some([])
    ensures session.environ == old(session.environ)
    ensures var r := InitialSpec(old(config.file), InitName(name, absPath), time, old(session.input));
      config.file == r.file && session.input == r.input
  {
    var project := InitName(name, absPath);
    env.Create();
    CreateConfigFile(config, session, project, time);
  }

  // ----- vps synth -----

  /** The provider names `vps synth` accepts. */
  predicate IsLinodeProvider(provider: string) {
    provider == "linode" || provider == "Linode"
  }

  /** The API token: the `--api-token` argument, else one typed line. */
  function SynthToken(input: seq<string>, apiToken: Option<string>): Option<Answered<string>> {
    if apiToken.Some? then Some(Answered(apiToken.value, input)) else LineAnswer(input)
  }

  /** What `vps synth` leaves: its outcome (True when it reports success), the
      descriptor, the secrets file and the lines still to be typed. */
  datatype Synthed = Synthed(outcome: Outcome<bool>, file: Option<Doc>, lines: Option<seq<EnvLine>>, input: seq<string>)

  /** `handle_vps_synth` as a function of the state it starts from: project check,
      provider check, token, `addEnvVar` of the token, the token test, the choice
      between the default settings and the catalogues, then `configure_instance`. */
  function SynthSpec(file: Option<Doc>, lines: Option<seq<EnvLine>>, input: seq<string>, provider: string,
                     apiToken: Option<string>, tokenValid: bool, catalogues: Catalogues,
                     order: seq<string>): Synthed
  {
    if file.None? || !IsLinodeProvider(provider) then Synthed(Returned(false), file, lines, input)
    else match SynthToken(input, apiToken)
      case None => Synthed(Raised, file, lines, [])
      case Some(t) =>
        var u := AddEnvVarSpec(true, lines, t.rest, Upper(VpsApiTokenEnvVar), t.value);
        if !u.ok || !tokenValid then Synthed(Returned(false), file, u.lines, u.input)
        else match YesNoAnswer(u.input)
          case None => Synthed(Raised, file, u.lines, [])
          case Some(c) =>
            var k := ConfigureSpec(file, c.rest, if c.value then Some(DefaultLinodeVpsConfig) else None,
                                   catalogues, order);
            Synthed(k.outcome, k.file, u.lines, k.input)
  }

  /** A provider other than "linode" or "Linode" changes nothing and asks nothing. */
  lemma SynthOnlyForLinode(file: Option<Doc>, lines: Option<seq<EnvLine>>, input: seq<string>, provider: string,
                           apiToken: Option<string>, tokenValid: bool, catalogues: Catalogues,
                           order: seq<string>)
    requires !IsLinodeProvider(provider)
    ensures SynthSpec(file, lines, input, provider, apiToken, tokenValid, catalogues, order) ==
      Synthed(Returned(false), file, lines, input)
  {
  }

  /** The token is stored before it is tested: with a token the secrets file did not
      hold, an invalid token leaves it written to the file and the descriptor as it was. */
  lemma SynthStoresTokenBeforeTest(file: Option<Doc>, lines: seq<EnvLine>, input: seq<string>, provider: string,
                                   token: string, catalogues: Catalogues, order: seq<string>)
    requires file.Some? && IsLinodeProvider(provider) && !Mentions(lines, Upper(VpsApiTokenEnvVar))
    ensures var s := SynthSpec(file, Some(lines), input, provider, Some(token), false, catalogues, order);
      && s.outcome == Returned(false) && s.file == file && s.input == input
      && s.lines == Some(SetKey(lines, Upper(VpsApiTokenEnvVar), token))
      && EnvValues(s.lines.value) == EnvValues(lines)[Upper(VpsApiTokenEnvVar) := token]
  {
    SetKeyValues(lines, Upper(VpsApiTokenEnvVar), token);
  }

  /** The descriptor changes only when `vps synth` reports success. */
  lemma SynthWritesOnlyOnSuccess(file: Option<Doc>, lines: Option<seq<EnvLine>>, input: seq<string>, provider: string,
                                 apiToken: Option<string>, tokenValid: bool, catalogues: Catalogues,
                                 order: seq<string>)
    ensures var s := SynthSpec(file, lines, input, provider, apiToken, tokenValid, catalogues, order);
      s.file != file ==> s.outcome == Returned(true)
  {
    if file.Some? && IsLinodeProvider(provider) && SynthToken(input, apiToken).Some? {
      var t := SynthToken(input, apiToken).value;
      var u := AddEnvVarSpec(true, lines, t.rest, Upper(VpsApiTokenEnvVar), t.value);
      if u.ok && tokenValid && YesNoAnswer(u.input).Some? {
        var c := YesNoAnswer(u.input).value;
        ConfigureWritesOnlyOnSuccess(file, c.rest, if c.value then Some(DefaultLinodeVpsConfig) else None,
                                     catalogues, order);
      }
    }
  }

  /** `handle_vps_synth`. `tokenValid` is the answer of the token test. */
  method HandleVpsSynth(config: YamlParser, env: EnvFile, session: Session, account: LinodeAccount,
                        provider: string, apiToken: Option<string>, tokenValid: bool,
                        catalogues: Catalogues, order: seq<string>)
    returns (r: Outcome<bool>)
    requires SettingsOrder(order)
    modifies config, env, session
    ensures Synthed(r, config.file, env.lines, session.input) ==
      SynthSpec(old(config.file), old(env.lines), old(session.input), provider, apiToken, tokenValid,
                catalogues, order)
    ensures session.environ ==
      if old(config.file).Some? && IsLinodeProvider(provider) && SynthToken(old(session.input), apiToken).Some?
      then LoadDotenv(old(session.environ), old(env.lines)) else old(session.environ)
  {
    if config.file.None? || !IsLinodeProvider(provider) {
      return Returned(false);
    }
    var token: string;
    if apiToken.Some? {
      token := apiToken.value;
    } else {
      var line := session.ReadLine();
      if line.None? {
        return Raised;
      }
      token := line.value;
    }
    var stored := AddEnvVar(config, env, session, VpsApiTokenEnvVar, token);
    if !stored {
      return Returned(false);
    }
    var linode := new LinodeProvider(token, account);
    if !tokenValid {
      return Returned(false);
    }
    var useDefaults := YesNoPrompt(session);
    if useDefaults.Raised? {
      return Raised;
    }
    if useDefaults.value {
      r := linode.ConfigureInstance(config, session, Some(DefaultLinodeVpsConfig), catalogues, order);
    } else {
      r := linode.ConfigureInstance(config, session, None, catalogues, order);
    }
  }

  /** A conflict prompt that meets the end of input makes `vps synth` fail: with a
      descriptor whose settings differ from the default ones, the token given on the
      command line and valid, and "y" the only line typed (take the defaults), the
      prompt about the settings finds no line, so `append` answers False and the
      descriptor stays as it was. */
  lemma SynthFailsAtConflictEndOfInput(token: string, catalogues: Catalogues, order: seq<string>)
    requires SettingsOrder(order)
    ensures var d := map[ProjectNameKey := Leaf("p"), ProviderKey := Leaf(LinodeProviderName),
                         VpsConfigsKey := Node(map[ImageKey := Leaf("other")])];
      var s := SynthSpec(Some(d), Some([]), ["y"], "linode", Some(token), true, catalogues, order);
      s.outcome == Returned(false) && s.file == Some(d) && s.input == []
  {
    var d := map[ProjectNameKey := Leaf("p"), ProviderKey := Leaf(LinodeProviderName),
                 VpsConfigsKey := Node(map[ImageKey := Leaf("other")])];
    var written := VpsDocument(DefaultLinodeVpsConfig[LabelKey := Leaf(InstanceLabel("p"))]);
    assert written[VpsConfigsKey].fields[ImageKey] != Leaf("other");
    assert Conflicting(Loaded(Some(d)), written, VpsConfigsKey);
    assert VpsConfigsKey in Conflicts(Loaded(Some(d)), written);
    assert Lower("y") == "y";
    GivenSettingsAskPerConflict(Some(d), [], DefaultLinodeVpsConfig, catalogues, order, "p");
  }

  // ----- vps up, down and status -----

  /** The password `vps up` creates the instance with. The handler loads the secrets
      file before it asks for the root password, and loading never overrides a
      variable already set; so when the file already held a password and the operator
      replaces it, the file ends up holding the new one while the instance is
      requested with the old one. */
  lemma ReplacedPasswordIsNotUsed(stored: string, typed: string)
    ensures var lines := Some([EnvLine(VpsRootPasswordEnvVar, stored)]);
      var loaded := LoadDotenv(map[], lines);
      var u := AddEnvVarSpec(true, lines, ["2"], Upper(VpsRootPasswordEnvVar), typed);
      && u.ok && u.lines.Some?
      && EnvValues(u.lines.value) == map[VpsRootPasswordEnvVar := typed]
      && RootPasswordAfterLoad(LoadDotenv(loaded, lines), u.lines) == Some(stored)
  {
    UpperNameFixed();
    ReplaceOnlyLine(VpsRootPasswordEnvVar, stored, typed);
    SingleLineValues(VpsRootPasswordEnvVar, typed);
    ReloadKeepsFirst(VpsRootPasswordEnvVar, stored, typed);
  }

  /** A file of one line gives that line's name and value. */
  lemma SingleLineValues(key: string, v: string)
    ensures EnvValues([EnvLine(key, v)]) == map[key := v]
  {
    assert [EnvLine(key, v)][..0] == [];
  }

  /** Loading a file that sets `key` again does not replace the value loaded first. */
  lemma ReloadKeepsFirst(key: string, stored: string, typed: string)
    ensures var loaded := LoadDotenv(map[], Some([EnvLine(key, stored)]));
      var reloaded := LoadDotenv(loaded, Some([EnvLine(key, typed)]));
      key in reloaded && reloaded[key] == stored
  {
    SingleLineValues(key, stored);
  }

  /** Answering "2" for a file whose one line holds `key` rewrites that line. */
  lemma ReplaceOnlyLine(key: string, stored: string, typed: string)
    ensures AddEnvVarSpec(true, Some([EnvLine(key, stored)]), ["2"], key, typed) ==
      EnvUpdate(true, Some([EnvLine(key, typed)]), [])
  {
    var line := EnvLine(key, stored);
    assert LineText(line) == (key + "=") + stored;
    assert StartsWith(LineText([line][0]), key + "=");
    assert Trimmed("2");
    StripKeepsTrimmed("2");
    assert Mentions([line], key);
    assert Strip(["2"][0]) == "2";
    assert HasName([line], key);
    assert ReplaceNamed([line], key, typed) == [EnvLine(key, typed)];
    assert SetKey([line], key, typed) == [EnvLine(key, typed)];
    assert ["2"][1..] == [];
  }

  /** The secret name is already upper-case. */
  lemma UpperNameFixed()
    ensures Upper(VpsRootPasswordEnvVar) == VpsRootPasswordEnvVar
  {
    var s := VpsRootPasswordEnvVar;
    assert s == ['V', 'P', 'S', '_', 'R', 'O', 'O', 'T', '_', 'P', 'A', 'S', 'S', 'W', 'O', 'R', 'D'];
    forall i | 0 <= i < |s|
      ensures Upper(s)[i] == s[i]
    {
    }
  }

  /** `handle_vps_up`. The secrets file is loaded first; a missing API token raises
      (KeyError). Then the root password is asked for and stored, and the instance is
      created. */
  method HandleVpsUp(config: YamlParser, env: EnvFile, session: Session, account: LinodeAccount,
                     keyPair: Option<string>, launched: Option<Launched>)
    returns (r: Outcome<()>)
    modifies config, env, session, account
    ensures old(config.file).None? ==>
      && r == Returned(()) && config.file == old(config.file) && env.lines == old(env.lines)
      && session.input == old(session.input) && session.environ == old(session.environ)
      && account.requests == old(account.requests)
    ensures old(config.file).Some? && VpsApiTokenEnvVar !in LoadDotenv(old(session.environ), old(env.lines)) ==>
      && r == Raised && config.file == old(config.file) && env.lines == old(env.lines)
      && session.input == old(session.input) && account.requests == old(account.requests)
    ensures old(config.file).Some? && VpsApiTokenEnvVar in LoadDotenv(old(session.environ), old(env.lines)) ==>
      match PasswordSpec(true, old(env.lines), old(session.input), Upper(VpsRootPasswordEnvVar))
      case None =>
        r == Raised && config.file == old(config.file) && env.lines == old(env.lines)
        && account.requests == old(account.requests)
      case Some(entry) => env.lines == entry.lines
    // at most one request, and it carries the password the secrets file held at the start, if any
    ensures account.requests == old(account.requests) ||
      (|account.requests| == |old(account.requests)| + 1 && account.requests[..|old(account.requests)|] == old(account.requests)
       && account.requests[|old(account.requests)|].CreateLinode?)
    ensures VpsRootPasswordEnvVar in LoadDotenv(old(session.environ), old(env.lines))
            && |account.requests| > |old(account.requests)| ==>
      account.requests[|old(account.requests)|].rootPass ==
        LoadDotenv(old(session.environ), old(env.lines))[VpsRootPasswordEnvVar]
  {
    if config.file.None? {
      return Returned(());
    }
    session.environ := LoadDotenv(session.environ, env.lines);
    if VpsApiTokenEnvVar !in session.environ {
      return Raised;
    }
    ghost var loaded := session.environ;
    var linode := new LinodeProvider(session.environ[VpsApiTokenEnvVar], account);
    ghost var typed := session.input;
    ghost var stored := env.lines;
    assert typed == old(session.input) && stored == old(env.lines);
    var password := linode.GetRootPassword(config, env, session);
    if password.Raised? {
      return Raised;
    }
    assert env.lines == PasswordSpec(true, stored, typed, Upper(VpsRootPasswordEnvVar)).value.lines;
    assert session.environ == LoadDotenv(loaded, old(env.lines));
    ghost var atCall := session.environ;
    ghost var linesAtCall := env.lines;
    r := linode.CreateInstance(config, env, session, keyPair, launched);
    if VpsRootPasswordEnvVar in loaded && |account.requests| > |old(account.requests)| {
      assert VpsRootPasswordEnvVar in atCall && atCall[VpsRootPasswordEnvVar] == loaded[VpsRootPasswordEnvVar];
      assert RootPasswordAfterLoad(atCall, linesAtCall) == Some(loaded[VpsRootPasswordEnvVar]);
    }
  }

  /** `handle_vps_down`: as `vps up`, then `destroy_instance`. The descriptor either
      stays as it was or loses the instance id and address, and at most the delete
      call for the stored id is sent. */
  method HandleVpsDown(config: YamlParser, env: EnvFile, session: Session, account: LinodeAccount,
                       found: nat, deleted: bool, keyFolder: bool)
    returns (r: Outcome<()>)
    modifies config, session, account
    ensures old(config.file).None? ==>
      && r == Returned(()) && config.file == old(config.file) && session.input == old(session.input)
      && session.environ == old(session.environ) && account.requests == old(account.requests)
    ensures old(config.file).Some? && VpsApiTokenEnvVar !in LoadDotenv(old(session.environ), old(env.lines)) ==>
      && r == Raised && config.file == old(config.file) && session.input == old(session.input)
      && account.requests == old(account.requests)
    ensures config.file == old(config.file) ||
      (DeleteAllowed(old(config.file))
       && config.file == Some(ForgetInstance(old(config.file).value, SettingsOf(old(config.file)).value)))
    ensures account.requests == old(account.requests) ||
      (DeleteAllowed(old(config.file))
       && account.requests == old(account.requests) + [DeleteLinode(SettingsOf(old(config.file)).value[LinodeIdKey])])
  {
    if config.file.None? {
      return Returned(());
    }
    session.environ := LoadDotenv(session.environ, env.lines);
    if VpsApiTokenEnvVar !in session.environ {
      return Raised;
    }
    var linode := new LinodeProvider(session.environ[VpsApiTokenEnvVar], account);
    r := linode.DestroyInstance(config, session, found, deleted, keyFolder);
  }

  /** `handle_vps_status`: as `vps up`, then `check_instance_status`, whose answer is
      what the handler reports. */
  method HandleVpsStatus(config: YamlParser, env: EnvFile, session: Session, account: LinodeAccount,
                         status: Option<string>)
    returns (r: Outcome<Option<string>>)
    modifies session
    ensures session.input == old(session.input)
    ensures config.file.None? ==> r == Returned(None) && session.environ == old(session.environ)
    ensures config.file.Some? ==> session.environ == LoadDotenv(old(session.environ), env.lines)
    ensures config.file.Some? ==>
      r == if VpsApiTokenEnvVar !in LoadDotenv(old(session.environ), env.lines) then Raised
           else if SettingsOf(config.file).None? then Returned(None)
           else Returned(Some(if status.Some? then NormalisedStatus(status.value) else "offline"))
  {
    if config.file.None? {
      return Returned(None);
    }
    session.environ := LoadDotenv(session.environ, env.lines);
    if VpsApiTokenEnvVar !in session.environ {
      return Raised;
    }
    var linode := new LinodeProvider(session.environ[VpsApiTokenEnvVar], account);
    var reported := linode.CheckInstanceStatus(config, status);
    r := Returned(reported);
  }

  // ----- coolify install -----

  /** `handle_coolify_install`: the host is looked up with `get` under the dotted name
      `vps_configs.public_ip`; success is reported whenever the SSH connection opens,
      whatever the update command does. Nothing happens without a project. */
  method HandleCoolifyInstall(config: YamlParser, connected: bool) returns (reported: bool, host: Option<Value>)
    ensures reported <==> config.file.Some? && connected
    ensures config.file.Some? ==> host == GetIn(config.file, InstancePath(PublicIpKey))
    ensures config.file.None? ==> host.None?
  {
    if config.file.None? {
      return false, None;
    }
    host := config.Get(ListToDotNotation([VpsConfigsKey, PublicIpKey]));
    reported := connected;
  }

  /** The address `create_instance` records is not the host `coolify install` uses:
      the dotted name is looked up as one top-level key, which the record never adds. */
  lemma InstallMissesRecordedAddress(d: Doc, m: Doc, id: int, ip: string)
    requires InstancePath(PublicIpKey) !in d
    ensures LookupPath(RecordInstance(d, m, id, ip), [VpsConfigsKey, PublicIpKey]) == Some(Leaf(ip))
    ensures GetIn(Some(RecordInstance(d, m, id, ip)), InstancePath(PublicIpKey)) == None
  {
    InstancePathSplits(PublicIpKey);
    SettingsKeySplits();
    assert InstancePath(PublicIpKey) != VpsConfigsKey;
  }

  // ----- delete -----

  /** `handle_delete` goes ahead with `--force`, else when the typed confirmation,
      lower-cased but not stripped, is "y"; it deletes nothing itself. */
  function DeleteConfirmed(force: bool, input: seq<string>): Option<Answered<bool>> {
    if force then Some(Answered(true, input))
    else match LineAnswer(input)
      case None => None
      case Some(a) => Some(Answered(Lower(a.value) == "y", a.rest))
  }

  /** "y" and "Y" confirm; "yes" and " y" do not; `--force` asks nothing. */
  lemma DeleteAnswers(rest: seq<string>)
    ensures DeleteConfirmed(true, rest) == Some(Answered(true, rest))
    ensures DeleteConfirmed(false, ["y"] + rest) == Some(Answered(true, rest))
    ensures DeleteConfirmed(false, ["Y"] + rest) == Some(Answered(true, rest))
    ensures DeleteConfirmed(false, ["yes"] + rest) == Some(Answered(false, rest))
    ensures DeleteConfirmed(false, [" y"] + rest) == Some(Answered(false, rest))
  {
    assert (["y"] + rest)[1..] == rest;
    assert (["Y"] + rest)[1..] == rest;
    assert (["yes"] + rest)[1..] == rest;
    assert ([" y"] + rest)[1..] == rest;
    assert Lower("y") == [LowerChar('y')];
    assert Lower("Y") == [LowerChar('Y')];
    assert |Lower("yes")| == 3;
    assert |Lower(" y")| == 2;
  }

  method HandleDelete(session: Session, force: bool) returns (r: Outcome<bool>)
    modifies session
    ensures session.environ == old(session.environ)
    ensures DeleteConfirmed(force, old(session.input)) ==
      if r.Returned? then Some(Answered(r.value, session.input)) else None
    ensures r.Raised? ==> session.input == []
  {
    if force {
      return Returned(true);
    }
    var line := session.ReadLine();
    if line.None? {
      return Raised;
    }
    r := Returned(Lower(line.value) == "y");
  }
}
