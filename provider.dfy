/** The Linode adapter of vps/provider.py: it writes the instance settings into the
    descriptor, creates the instance from them and records its id and address, deletes
    it and clears them again, and reports its status. Every call into the Linode SDK is
    replaced by a parameter holding its answer, and the create and delete calls are
    recorded on a `LinodeAccount`. */
module Provider {
  import opened Wrappers
  import opened Text
  import opened Documents
  import opened Keys
  import opened YamlStore
  import opened Console
  import opened Cli

  // ----- the remote side -----

  /** A state-changing call sent to the Linode API. The settings are passed on as the
      descriptor holds them, whatever their YAML type. */
  datatype LinodeRequest =
    | CreateLinode(ltype: Value, region: Value, image: Value, instanceLabel: Value, rootPass: string, authorizedKeys: seq<string>)
    | DeleteLinode(id: Value)

  /** The instance `instance_create` hands back: its id and its IPv4 addresses. */
  datatype Launched = Launched(id: int, ipv4: seq<string>)

  /** The Linode account behind the client: the calls that change it, in order. */
  class LinodeAccount {
    var requests: seq<LinodeRequest>

    constructor ()
      ensures requests == []
    {
      requests := [];
    }
  }

  /** One entry of the image catalogue: the title shown in the menu and the id stored. */
  datatype Image = Image(title: string, id: string)

  /** The three catalogues the interactive configuration offers; None stands for a
      request that failed. */
  datatype Catalogues = Catalogues(images: Option<seq<Image>>, regions: Option<seq<string>>, types: Option<seq<string>>)

  // ----- the root password -----

  /** The i-th pair of typed passwords (entry, confirmation) is complete and matches. */
  predicate PairMatches(input: seq<string>, i: nat) {
    2 * i + 1 < |input| && input[2 * i] == input[2 * i + 1]
  }

  /** The index of the first pair whose two entries are equal, or None when the input
      ends first. Length is not a condition: a short password is only warned about. */
  function FirstConfirmedPair(input: seq<string>): (p: Option<nat>)
    ensures p.Some? ==> PairMatches(input, p.value)
    ensures p.Some? ==> forall i: nat :: i < p.value ==> 2 * i + 1 < |input| && !PairMatches(input, i)
    ensures p.None? ==> forall i: nat :: !PairMatches(input, i)
    decreases |input|
  {
    if |input| < 2 then None
    else if input[0] == input[1] then Some(0)
    else
      ShiftPairs(input);
      match FirstConfirmedPair(input[2..])
      case Some(p) => Some(p + 1)
      case None => None
  }

  /** Dropping the first pair renumbers the others. */
  lemma ShiftPairs(input: seq<string>)
    requires |input| >= 2
    ensures forall i: nat :: PairMatches(input, i + 1) <==> PairMatches(input[2..], i)
    ensures forall i: nat :: (2 * (i + 1) + 1 < |input|) <==> (2 * i + 1 < |input[2..]|)
    ensures forall i: nat :: i > 0 ==> (PairMatches(input, i) <==> PairMatches(input[2..], i - 1))
  {
    forall i: nat
      ensures PairMatches(input, i + 1) <==> PairMatches(input[2..], i)
    {
      if 2 * i + 1 < |input[2..]| {
        assert input[2..][2 * i] == input[2 * (i + 1)];
        assert input[2..][2 * i + 1] == input[2 * (i + 1) + 1];
      }
    }
    forall i: nat | i > 0
      ensures PairMatches(input, i) <==> PairMatches(input[2..], i - 1)
    {
      assert PairMatches(input, (i - 1) + 1) <==> PairMatches(input[2..], i - 1);
    }
  }

  /** The password the prompt settles on and the lines typed after its pair; None when
      the input ends before a pair matches. */
  function ConfirmedPassword(input: seq<string>): (a: Option<Answered<string>>)
    decreases |input|
  {
    if |input| < 2 then None
    else if input[0] == input[1] then Some(Answered(input[0], input[2..]))
    else ConfirmedPassword(input[2..])
  }

  /** The password settled on is the entry of the first confirmed pair, and what is
      left to type starts right after that pair. */
  lemma {:induction false} ConfirmedPasswordAtPair(input: seq<string>)
    ensures ConfirmedPassword(input) ==
      match FirstConfirmedPair(input)
      case None => None
      case Some(p) => Some(Answered(input[2 * p], input[2 * p + 2..]))
    decreases |input|
  {
    if |input| >= 2 && input[0] != input[1] {
      ConfirmedPasswordAtPair(input[2..]);
      match FirstConfirmedPair(input[2..])
      case None =>
      case Some(p) =>
        assert input[2..][2 * p] == input[2 * (p + 1)];
        assert input[2..][2 * p + 2..] == input[2 * (p + 1) + 2..];
    }
  }

  /** Any password typed twice in a row is accepted, however short. */
  lemma RepeatedPasswordAccepted(password: string, rest: seq<string>)
    ensures FirstConfirmedPair([password, password] + rest) == Some(0)
  {
  }

  // ----- the project name and the settings document -----

  /** The project name as `configure_instance` reads it: the value of `project_name`
      when it is a string, else that value's own `project_name` entry. None stands for
      the exceptions the lookup raises (a missing key, a non-mapping indexed, or a
      non-string added to the prefix). */
  function ProjectNameOf(v: Option<Value>): (name: Option<string>)
    ensures name.Some? ==>
      v == Some(Leaf(name.value))
      || (v.Some? && v.value.Node? && ProjectNameKey in v.value.fields
          && v.value.fields[ProjectNameKey] == Leaf(name.value))
  {
    match v
    case Some(Leaf(s)) => Some(s)
    case Some(Node(m)) =>
      if ProjectNameKey in m && m[ProjectNameKey].Leaf? then Some(m[ProjectNameKey].text) else None
    case _ => None
  }

  /** The label of the project's instance: the instance prefix, then the project name. */
  function InstanceLabel(name: string): (tag: string)
    ensures |tag| == |LinodeInstancePrefix| + |name|
    ensures tag[..|LinodeInstancePrefix|] == LinodeInstancePrefix
    ensures tag[|LinodeInstancePrefix|..] == name
  {
    LinodeInstancePrefix + name
  }

  /** The document `configure_instance` appends. */
  function VpsDocument(vpsConfigs: Doc): Doc {
    map[ProviderKey := Leaf(LinodeProviderName), VpsConfigsKey := Node(vpsConfigs)]
  }

  /** In a project not configured yet, configuring writes the provider and the settings
      with the label, and keeps every other key. */
  lemma FirstConfigurationWritten(d: Doc, configs: Doc, name: string, answer: string -> string)
    requires ProviderKey !in d && VpsConfigsKey !in d
    ensures var r := Merged(d, VpsDocument(configs[LabelKey := Leaf(InstanceLabel(name))]), answer);
      && LookupPath(r, [ProviderKey]) == Some(Leaf(LinodeProviderName))
      && LookupPath(r, [VpsConfigsKey, LabelKey]) == Some(Leaf(InstanceLabel(name)))
      && (forall k :: k in configs && k != LabelKey ==> LookupPath(r, [VpsConfigsKey, k]) == Some(configs[k]))
      && (forall k :: k in d ==> k in r && r[k] == d[k])
  {
    var vps := configs[LabelKey := Leaf(InstanceLabel(name))];
    var r := Merged(d, VpsDocument(vps), answer);
    assert r[VpsConfigsKey] == Node(vps);
    assert [VpsConfigsKey, LabelKey][1..] == [LabelKey];
    forall k | k in configs && k != LabelKey
      ensures LookupPath(r, [VpsConfigsKey, k]) == Some(configs[k])
    {
      assert [VpsConfigsKey, k][1..] == [k];
    }
  }

  /** A project that names a provider but holds no settings never gets them from a new
      configuration: the shared `provider` key makes the merge drop `vps_configs`. */
  lemma ReconfigurationDropsSettings(d: Doc, configs: Doc, answer: string -> string)
    requires ProviderKey in d && VpsConfigsKey !in d
    ensures VpsConfigsKey !in Merged(d, VpsDocument(configs), answer)
  {
    assert ProviderKey in d.Keys * VpsDocument(configs).Keys;
  }

  /** The settings chosen from the three catalogues, and the input left after the three
      menus; None when the input ends first. */
  function ChosenSettings(input: seq<string>, images: seq<Image>, regions: seq<string>, types: seq<string>):
    (r: Option<Answered<Doc>>)
    ensures r.Some? ==>
      && ImageKey in r.value.value && RegionKey in r.value.value && TypeKey in r.value.value
      && (exists i :: 0 <= i < |images| && r.value.value[ImageKey] == Leaf(images[i].id))
      && (exists i :: 0 <= i < |regions| && r.value.value[RegionKey] == Leaf(regions[i]))
      && (exists i :: 0 <= i < |types| && r.value.value[TypeKey] == Leaf(types[i]))
  {
    match ChoiceAnswer(input, |images|)
    case None => None
    case Some(a) =>
      match ChoiceAnswer(a.rest, |regions|)
      case None => None
      case Some(b) =>
        match ChoiceAnswer(b.rest, |types|)
        case None => None
        case Some(c) =>
          Some(Answered(map[ImageKey := Leaf(images[a.value].id),
                            RegionKey := Leaf(regions[b.value]),
                            TypeKey := Leaf(types[c.value])], c.rest))
  }

  /** What `configure_instance` leaves: its outcome, the descriptor and the lines
      still to be typed. */
  datatype Configured = Configured(outcome: Outcome<bool>, file: Option<Doc>, input: seq<string>)

  /** An order in which `append` may visit the two keys `configure_instance` writes. */
  predicate SettingsOrder(order: seq<string>) {
    Distinct(order) && ProviderKey in order && VpsConfigsKey in order
  }

  /** The write at the end of `configure_instance`: the settings, labelled after the
      project, appended under `vps_configs` beside `provider`, with a prompt per key
      the descriptor holds with another value; its answer is the answer of
      `configure_instance`. Reading the project name raises when it is neither a
      string nor a mapping holding one. */
  function WriteSettings(file: Option<Doc>, settings: Doc, input: seq<string>, order: seq<string>): Configured {
    match ProjectNameOf(GetIn(file, ProjectNameKey))
    case None => Configured(Raised, file, input)
    case Some(name) =>
      var a := AppendSpec(file, Node(VpsDocument(settings[LabelKey := Leaf(InstanceLabel(name))])), order, input);
      Configured(Returned(a.ok), a.file, a.input)
  }

  /** `configure_instance` as a function of the state it starts from. No project:
      False. Given settings are written at once. Otherwise a failed catalogue gives
      False, and one entry of each catalogue is chosen before the write. */
  function ConfigureSpec(file: Option<Doc>, input: seq<string>, configs: Option<Doc>,
                         catalogues: Catalogues, order: seq<string>): Configured
  {
    if file.None? then Configured(Returned(false), file, input)
    else if configs.Some? then WriteSettings(file, configs.value, input, order)
    else if catalogues.images.None? || catalogues.regions.None? || catalogues.types.None? then
      Configured(Returned(false), file, input)
    else match ChosenSettings(input, catalogues.images.value, catalogues.regions.value, catalogues.types.value)
      case None => Configured(Raised, file, [])
      case Some(chosen) => WriteSettings(file, chosen.value, chosen.rest, order)
  }

  /** The descriptor changes only when `configure_instance` answers True, which needs
      a project whose name can be read. */
  lemma ConfigureWritesOnlyOnSuccess(file: Option<Doc>, input: seq<string>, configs: Option<Doc>,
                                     catalogues: Catalogues, order: seq<string>)
    ensures var c := ConfigureSpec(file, input, configs, catalogues, order);
      && (c.file != file ==> c.outcome == Returned(true))
      && (c.outcome == Returned(true) ==>
            file.Some? && ProjectNameOf(GetIn(file, ProjectNameKey)).Some? && c.file.Some?)
  {
  }

  /** With the settings given and a readable project name, `configure_instance`
      answers True exactly when a line is typed for each key the descriptor holds with
      another value. Otherwise end of input at a prompt makes it answer False with
      the descriptor unchanged and no input left; with no such key nothing is asked. */
  lemma GivenSettingsAskPerConflict(file: Option<Doc>, input: seq<string>, configs: Doc,
                                    catalogues: Catalogues, order: seq<string>, name: string)
    requires SettingsOrder(order)
    requires file.Some? && ProjectNameOf(GetIn(file, ProjectNameKey)) == Some(name)
    ensures var written := VpsDocument(configs[LabelKey := Leaf(InstanceLabel(name))]);
      var asked := |Conflicts(Loaded(file), written)|;
      var c := ConfigureSpec(file, input, Some(configs), catalogues, order);
      && (c.outcome == Returned(true) <==> asked <= |input|)
      && (asked > |input| ==> c == Configured(Returned(false), file, []))
      && (asked <= |input| ==> c.input == input[asked..])
  {
    var written := VpsDocument(configs[LabelKey := Leaf(InstanceLabel(name))]);
    AppendSucceedsIffAnswered(file, Node(written), order, input);
  }

  // ----- status -----

  /** `status.lower().strip()`. */
  function NormalisedStatus(status: string): (r: string)
    ensures IsLowerCase(r) && Trimmed(r)
  {
    LowerIsLowerCase(status);
    StripKeepsLowerCase(Lower(status));
    Strip(Lower(status))
  }

  /** Normalising a normalised status changes nothing. */
  lemma NormalisedStatusIdempotent(status: string)
    ensures NormalisedStatus(NormalisedStatus(status)) == NormalisedStatus(status)
  {
    var once := NormalisedStatus(status);
    LowerCaseFixed(once);
    StripKeepsTrimmed(once);
  }

  // ----- the instance settings stored in the descriptor -----

  /** The `vps_configs` mapping of the descriptor, when it holds one. */
  function SettingsOf(file: Option<Doc>): (m: Option<Doc>)
    ensures m.Some? ==> GetIn(file, VpsConfigsKey) == Some(Node(m.value))
    ensures m.None? ==> GetIn(file, VpsConfigsKey).None? || !GetIn(file, VpsConfigsKey).value.Node?
  {
    match GetIn(file, VpsConfigsKey)
    case Some(Node(m)) => Some(m)
    case _ => None
  }

  /** `vps_configs` is there but is not a mapping, so calling `.get` on it raises. */
  predicate SettingsNotMapping(file: Option<Doc>) {
    GetIn(file, VpsConfigsKey).Some? && !GetIn(file, VpsConfigsKey).value.Node?
  }

  /** The root password `os.getenv` finds once `load_dotenv` has run. */
  function RootPasswordAfterLoad(environ: map<string, string>, lines: Option<seq<EnvLine>>): Option<string> {
    var loaded := LoadDotenv(environ, lines);
    if VpsRootPasswordEnvVar in loaded then Some(loaded[VpsRootPasswordEnvVar]) else None
  }

  /** Every check `create_instance` makes before calling the API passes: the settings
      hold image, region, type and label, a root password is set and a key pair was
      generated. */
  predicate CreateAllowed(file: Option<Doc>, environ: map<string, string>, lines: Option<seq<EnvLine>>,
                          keyPair: Option<string>)
  {
    && SettingsOf(file).Some? && HasInstanceSettings(SettingsOf(file).value)
    && RootPasswordAfterLoad(environ, lines).Some? && keyPair.Some?
  }

  /** A `destroy_instance` with these settings gets as far as looking the instance up. */
  predicate DeleteAllowed(file: Option<Doc>) {
    SettingsOf(file).Some? && LinodeIdKey in SettingsOf(file).value
  }

  /** The dotted path of one key inside `vps_configs`. */
  function InstancePath(key: string): string {
    ListToDotNotation([VpsConfigsKey, key])
  }

  /** `vps_configs` holds no dot, so it names one top-level key. */
  lemma SettingsKeySplits()
    ensures SplitDots(VpsConfigsKey) == [VpsConfigsKey]
  {
    assert DotFree(VpsConfigsKey) by {
      assert VpsConfigsKey == ['v', 'p', 's', '_', 'c', 'o', 'n', 'f', 'i', 'g', 's'];
    }
    SplitDotFree(VpsConfigsKey);
  }

  /** The dotted paths of the instance id and address split the way they were joined. */
  lemma InstancePathSplits(key: string)
    requires key == LinodeIdKey || key == PublicIpKey
    ensures SplitDots(InstancePath(key)) == [VpsConfigsKey, key]
  {
    assert DotFree(VpsConfigsKey) by {
      assert VpsConfigsKey == ['v', 'p', 's', '_', 'c', 'o', 'n', 'f', 'i', 'g', 's'];
    }
    if key == LinodeIdKey {
      assert DotFree(key) by {
        assert key == ['l', 'i', 'n', 'o', 'd', 'e', '_', 'i', 'd'];
      }
    } else {
      assert DotFree(key) by {
        assert key == ['p', 'u', 'b', 'l', 'i', 'c', '_', 'i', 'p'];
      }
    }
    SplitJoined([VpsConfigsKey, key]);
  }

  /** The four settings `create_instance` needs are all present. */
  predicate HasInstanceSettings(m: Doc) {
    ImageKey in m && RegionKey in m && TypeKey in m && LabelKey in m
  }

  /** The descriptor after a successful creation: `vps_configs` gains the instance id
      and its first address, everything else as it was. */
  function RecordInstance(d: Doc, m: Doc, id: int, ip: string): (r: Doc)
    ensures LookupPath(r, [VpsConfigsKey, LinodeIdKey]) == Some(Num(id))
    ensures LookupPath(r, [VpsConfigsKey, PublicIpKey]) == Some(Leaf(ip))
    ensures forall k :: k in m && k != LinodeIdKey && k != PublicIpKey ==>
      LookupPath(r, [VpsConfigsKey, k]) == Some(m[k])
    ensures forall k :: k in d && k != VpsConfigsKey ==> k in r && r[k] == d[k]
    ensures r.Keys == d.Keys + {VpsConfigsKey}
  {
    var r := d[VpsConfigsKey := Node(m[LinodeIdKey := Num(id)][PublicIpKey := Leaf(ip)])];
    assert [VpsConfigsKey, LinodeIdKey][1..] == [LinodeIdKey];
    assert [VpsConfigsKey, PublicIpKey][1..] == [PublicIpKey];
    assert forall k :: [VpsConfigsKey, k][1..] == [k];
    r
  }

  /** The descriptor after a confirmed deletion with the key folder present: the id and
      the address are gone from `vps_configs`, everything else as it was. */
  function ForgetInstance(d: Doc, m: Doc): (r: Doc)
    ensures LookupPath(r, [VpsConfigsKey, LinodeIdKey]) == None
    ensures LookupPath(r, [VpsConfigsKey, PublicIpKey]) == None
    ensures forall k :: k in m && k != LinodeIdKey && k != PublicIpKey ==>
      LookupPath(r, [VpsConfigsKey, k]) == Some(m[k])
    ensures forall k :: k in d && k != VpsConfigsKey ==> k in r && r[k] == d[k]
  {
    var r := d[VpsConfigsKey := Node(m - {LinodeIdKey, PublicIpKey})];
    assert [VpsConfigsKey, LinodeIdKey][1..] == [LinodeIdKey];
    assert [VpsConfigsKey, PublicIpKey][1..] == [PublicIpKey];
    assert forall k :: [VpsConfigsKey, k][1..] == [k];
    r
  }

  /** Creation then deletion leaves `vps_configs` as it was before, once it held
      neither an id nor an address. */
  lemma ForgetUndoesRecord(d: Doc, m: Doc, id: int, ip: string)
    requires LinodeIdKey !in m && PublicIpKey !in m
    requires VpsConfigsKey in d && d[VpsConfigsKey] == Node(m)
    ensures var after := RecordInstance(d, m, id, ip);
      ForgetInstance(after, after[VpsConfigsKey].fields) == d
  {
    var after := RecordInstance(d, m, id, ip);
    var m2 := m[LinodeIdKey := Num(id)][PublicIpKey := Leaf(ip)];
    assert m2 - {LinodeIdKey, PublicIpKey} == m;
    var r := ForgetInstance(after, m2);
    assert r.Keys == d.Keys;
  }

  /** Removing `vps_configs.<key>` removes `key` from the settings mapping, and fails
      when the settings do not hold it. */
  lemma RemoveInstanceKey(d: Doc, m: Doc, key: string)
    requires VpsConfigsKey in d && d[VpsConfigsKey] == Node(m)
    ensures RemovePath(d, [VpsConfigsKey, key]) ==
      if key in m then Some(d[VpsConfigsKey := Node(m - {key})]) else None
  {
    assert [VpsConfigsKey, key][1..] == [key];
  }

  /** What `get_root_password` leaves: the confirmed password, the secrets file after
      it is stored and the lines still to be typed. */
  datatype PasswordEntry = PasswordEntry(password: string, lines: Option<seq<EnvLine>>, rest: seq<string>)

  /** `get_root_password` as a function of the state it starts from: the first
      confirmed pair gives the password, which is then stored under `key` with
      `addEnvVar`; None when the input ends before a pair matches. */
  function PasswordSpec(hasRoot: bool, lines: Option<seq<EnvLine>>, input: seq<string>, key: string): Option<PasswordEntry> {
    match ConfirmedPassword(input)
    case None => None
    case Some(a) =>
      var u := AddEnvVarSpec(hasRoot, lines, a.rest, key, a.value);
      Some(PasswordEntry(a.value, u.lines, u.input))
  }

  /** The write-back at the end of `create_instance`: `vps_configs` is read again, given
      the instance id and address, removed and appended back. The append meets no
      shared key, so nothing is asked. */
  method RecordLaunch(config: YamlParser, session: Session, m: Doc, id: int, ip: string)
    requires config.file.Some? && SettingsOf(config.file) == Some(m)
    modifies config, session
    ensures session.input == old(session.input) && session.environ == old(session.environ)
    ensures config.file == Some(RecordInstance(old(config.file).value, m, id, ip))
  {
    ghost var d := config.file.value;
    var again := config.Get(VpsConfigsKey);
    var current := again.value.fields;
    var updated := current[LinodeIdKey := Num(id)][PublicIpKey := Leaf(ip)];
    SettingsKeySplits();
    var removed := config.Remove(VpsConfigsKey);
    assert config.file == Some(d - {VpsConfigsKey});
    AppendAfterRemove(d, VpsConfigsKey, Node(updated), session.input);
    var appended := config.Append(session, Node(map[VpsConfigsKey := Node(updated)]), [VpsConfigsKey]);
  }

  /** Appending a key just removed asks nothing and puts the value back in its place. */
  lemma AppendAfterRemove(d: Doc, k: string, v: Value, input: seq<string>)
    ensures AppendSpec(Some(d - {k}), Node(map[k := v]), [k], input) == Appended(true, Some(d[k := v]), input)
  {
    var e := d - {k};
    assert Loaded(Some(e)) == e;
    assert AppendOne(Some(e), k, v, input) == Appended(true, Some(e[k := v]), input);
    assert e[k := v] == d[k := v];
    OneKeyAppend(Some(e), k, v, input);
  }

  /** The prompt loop of `get_root_password`: entry and confirmation are read until
      they match; end of input raises EOFError. */
  method ReadConfirmedPassword(session: Session) returns (r: Outcome<string>)
    modifies session
    ensures session.environ == old(session.environ)
    ensures ConfirmedPassword(old(session.input)) ==
      if r.Returned? then Some(Answered(r.value, session.input)) else None
    ensures r.Raised? ==> session.input == []
  {
    while true
      invariant ConfirmedPassword(session.input) == ConfirmedPassword(old(session.input))
      invariant session.environ == old(session.environ)
      decreases |session.input|
    {
      var first := session.ReadLine();
      if first.None? {
        return Raised;
      }
      var second := session.ReadLine();
      if second.None? {
        return Raised;
      }
      if first.value == second.value {
        return Returned(first.value);
      }
    }
  }

  /** The write-back at the end of `destroy_instance`: the instance id and then the
      address are removed from `vps_configs`. */
  method ForgetLaunch(config: YamlParser, m: Doc)
    requires config.file.Some? && SettingsOf(config.file) == Some(m) && LinodeIdKey in m
    modifies config
    ensures config.file == Some(ForgetInstance(old(config.file).value, m))
  {
    ghost var d := config.file.value;
    InstancePathSplits(LinodeIdKey);
    InstancePathSplits(PublicIpKey);
    RemoveInstanceKey(d, m, LinodeIdKey);
    var idRemoved := config.Remove(InstancePath(LinodeIdKey));
    ghost var d' := d[VpsConfigsKey := Node(m - {LinodeIdKey})];
    assert config.file == Some(d');
    RemoveInstanceKey(d', m - {LinodeIdKey}, PublicIpKey);
    var ipRemoved := config.Remove(InstancePath(PublicIpKey));
    if PublicIpKey in m {
      assert m - {LinodeIdKey} - {PublicIpKey} == m - {LinodeIdKey, PublicIpKey};
      assert d'[VpsConfigsKey := Node(m - {LinodeIdKey} - {PublicIpKey})] == ForgetInstance(d, m);
    } else {
      assert m - {LinodeIdKey} == m - {LinodeIdKey, PublicIpKey};
    }
  }

  /** The three menus of `configure_instance`: an image (shown by title), a region and
      a type are chosen in turn; end of input raises EOFError, which escapes. */
  method ChooseSettings(session: Session, images: seq<Image>, regions: seq<string>, types: seq<string>)
    returns (r: Option<Doc>)
    modifies session
    ensures session.environ == old(session.environ)
    ensures ChosenSettings(old(session.input), images, regions, types) ==
      if r.Some? then Some(Answered(r.value, session.input)) else None
    ensures r.None? ==> session.input == []
  {
    var titles := seq(|images|, i requires 0 <= i < |images| => images[i].title);
    var imageChoice := GetUserChoice(session, titles);
    if imageChoice.Raised? {
      return None;
    }
    var regionChoice := GetUserChoice(session, regions);
    if regionChoice.Raised? {
      return None;
    }
    var typeChoice := GetUserChoice(session, types);
    if typeChoice.Raised? {
      return None;
    }
    r := Some(map[ImageKey := Leaf(images[imageChoice.value].id),
                  RegionKey := Leaf(regions[regionChoice.value]),
                  TypeKey := Leaf(types[typeChoice.value])]);
  }

  /** A `LinodeProvider`: an API token and the account the client talks to. */
  class LinodeProvider {
    const apiToken: string
    const account: LinodeAccount

    constructor (apiToken: string, account: LinodeAccount)
      ensures this.apiToken == apiToken && this.account == account
    {
      this.apiToken := apiToken;
      this.account := account;
    }

    /** `get_root_password`: read entry and confirmation until they match, then store
        the password with `addEnvVar`, whose answer is only printed. End of input
        raises EOFError, which escapes. Nothing is returned. */
    method GetRootPassword(config: YamlParser, env: EnvFile, session: Session) returns (r: Outcome<()>)
      modifies env, session
      ensures var entry := PasswordSpec(config.file.Some?, old(env.lines), old(session.input), Upper(VpsRootPasswordEnvVar));
        && (r.Returned? <==> entry.Some?)
        && (entry.Some? ==> env.lines == entry.value.lines && session.input == entry.value.rest)
      ensures r.Raised? ==> env.lines == old(env.lines) && session.input == []
      ensures session.environ ==
        if r.Returned? && config.file.Some? then LoadDotenv(old(session.environ), old(env.lines)) else old(session.environ)
    {
      var password := ReadConfirmedPassword(session);
      if password.Raised? {
        return Raised;
      }
      var stored := AddEnvVar(config, env, session, VpsRootPasswordEnvVar, password.value);
      r := Returned(());
    }

    /** `configure_instance`. No project: False, nothing written. Given settings are
        written with the label; without them the three catalogues are fetched (False
        if one fails) and one entry of each is chosen. The project name lookup may
        raise. The append asks about each key the descriptor holds with another value,
        in `order`, and its answer is the answer. */
    method ConfigureInstance(config: YamlParser, session: Session, configs: Option<Doc>,
                             catalogues: Catalogues, order: seq<string>)
      returns (r: Outcome<bool>)
      requires SettingsOrder(order)
      modifies config, session
      ensures session.environ == old(session.environ)
      ensures Configured(r, config.file, session.input) ==
        ConfigureSpec(old(config.file), old(session.input), configs, catalogues, order)
    {
      if config.file.None? {
        return Returned(false);
      }
      if configs.Some? {
        var name := ProjectNameOf(config.Get(ProjectNameKey));
        if name.None? {
          return Raised;
        }
        var settings := configs.value[LabelKey := Leaf(InstanceLabel(name.value))];
        var ok := config.Append(session, Node(VpsDocument(settings)), order);
        return Returned(ok);
      }
      if catalogues.images.None? || catalogues.regions.None? || catalogues.types.None? {
        return Returned(false);
      }
      var images := catalogues.images.value;
      var regions := catalogues.regions.value;
      var types := catalogues.types.value;
      ghost var typed := session.input;
      var chosen := ChooseSettings(session, images, regions, types);
      if chosen.None? {
        return Raised;
      }
      assert ChosenSettings(typed, images, regions, types) == Some(Answered(chosen.value, session.input));
      var name := ProjectNameOf(config.Get(ProjectNameKey));
      if name.None? {
        return Raised;
      }
      var settings := chosen.value[LabelKey := Leaf(InstanceLabel(name.value))];
      var ok := config.Append(session, Node(VpsDocument(settings)), order);
      return Returned(ok);
    }

    /** `create_instance`. Nothing is sent and nothing written unless every check
        passes; `vps_configs` that is not a mapping raises. After the create call, an
        SDK failure or an instance without an address raises before the write-back;
        otherwise the id and the first address are written into `vps_configs` by
        removing it and appending it again. */
    method CreateInstance(config: YamlParser, env: EnvFile, session: Session,
                          keyPair: Option<string>, launched: Option<Launched>)
      returns (r: Outcome<()>)
      modifies config, session, account
      ensures session.input == old(session.input)
      ensures session.environ ==
        if SettingsOf(old(config.file)).Some? && HasInstanceSettings(SettingsOf(old(config.file)).value)
        then LoadDotenv(old(session.environ), env.lines) else old(session.environ)
      ensures !CreateAllowed(old(config.file), old(session.environ), env.lines, keyPair) ==>
        && config.file == old(config.file) && account.requests == old(account.requests)
        && (r.Raised? <==> SettingsNotMapping(old(config.file)))
      ensures CreateAllowed(old(config.file), old(session.environ), env.lines, keyPair) ==>
        var m := SettingsOf(old(config.file)).value;
        && account.requests == old(account.requests) + [CreateLinode(m[TypeKey], m[RegionKey], m[ImageKey], m[LabelKey],
             RootPasswordAfterLoad(old(session.environ), env.lines).value, [keyPair.value])]
        && (r.Raised? <==> launched.None? || |launched.value.ipv4| == 0)
        && config.file == if r.Raised? then old(config.file)
             else Some(RecordInstance(old(config.file).value, m, launched.value.id, launched.value.ipv4[0]))
    {
      ghost var f0 := config.file;
      if config.file.None? {
        return Returned(());
      }
      var stored := config.Get(VpsConfigsKey);
      assert stored == GetIn(f0, VpsConfigsKey);
      if stored.None? {
        assert SettingsOf(f0).None? && !SettingsNotMapping(f0);
        return Returned(());
      }
      if !stored.value.Node? {
        assert SettingsOf(f0).None? && SettingsNotMapping(f0);
        return Raised;
      }
      var m := stored.value.fields;
      assert SettingsOf(f0) == Some(m) && !SettingsNotMapping(f0);
      if !(ImageKey in m && RegionKey in m && TypeKey in m && LabelKey in m) {
        assert !HasInstanceSettings(m);
        return Returned(());
      }
      session.environ := LoadDotenv(session.environ, env.lines);
      if VpsRootPasswordEnvVar !in session.environ {
        return Returned(());
      }
      var rootPass := session.environ[VpsRootPasswordEnvVar];
      if keyPair.None? {
        return Returned(());
      }
      account.requests := account.requests
        + [CreateLinode(m[TypeKey], m[RegionKey], m[ImageKey], m[LabelKey], rootPass, [keyPair.value])];
      if launched.None? || |launched.value.ipv4| == 0 {
        return Raised;
      }
      RecordLaunch(config, session, m, launched.value.id, launched.value.ipv4[0]);
      r := Returned(());
    }

    /** `destroy_instance`. Without an instance id in a `vps_configs` mapping nothing
        happens (a non-mapping raises). `found` instances match the id; none raises.
        The operator confirms; on yes the delete call is sent, and when it succeeds and
        the key folder exists, the id and the address are removed from `vps_configs`. */
    method DestroyInstance(config: YamlParser, session: Session, found: nat, deleted: bool, keyFolder: bool)
      returns (r: Outcome<()>)
      modifies config, session, account
      ensures session.environ == old(session.environ)
      ensures !DeleteAllowed(old(config.file)) ==>
        && config.file == old(config.file) && account.requests == old(account.requests)
        && session.input == old(session.input)
        && (r.Raised? <==> SettingsNotMapping(old(config.file)))
      ensures DeleteAllowed(old(config.file)) && found == 0 ==>
        && r == Raised && config.file == old(config.file) && account.requests == old(account.requests)
        && session.input == old(session.input)
      ensures DeleteAllowed(old(config.file)) && found > 0 ==>
        var m := SettingsOf(old(config.file)).value;
        match YesNoAnswer(old(session.input))
        case None =>
          r == Raised && session.input == [] && config.file == old(config.file)
          && account.requests == old(account.requests)
        case Some(confirm) =>
          && r == Returned(())
          && session.input == confirm.rest
          && account.requests == old(account.requests) + (if confirm.value then [DeleteLinode(m[LinodeIdKey])] else [])
          && config.file == if confirm.value && deleted && keyFolder
               then Some(ForgetInstance(old(config.file).value, m)) else old(config.file)
    {
      if config.file.None? {
        return Returned(());
      }
      var stored := config.Get(VpsConfigsKey);
      if stored.None? {
        return Returned(());
      }
      if !stored.value.Node? {
        return Raised;
      }
      var m := stored.value.fields;
      if LinodeIdKey !in m {
        return Returned(());
      }
      if found == 0 {
        return Raised;
      }
      var confirm := YesNoPrompt(session);
      if confirm.Raised? {
        return Raised;
      }
      if !confirm.value {
        return Returned(());
      }
      account.requests := account.requests + [DeleteLinode(m[LinodeIdKey])];
      if !deleted {
        return Returned(());
      }
      if keyFolder {
        ForgetLaunch(config, m);
      }
      r := Returned(());
    }

    /** `check_instance_status`: None without a `vps_configs` mapping (the reads raise
        inside the `try`); otherwise the status lower-cased and stripped, or "offline"
        when the lookup raised (`status` None). */
    method CheckInstanceStatus(config: YamlParser, status: Option<string>) returns (r: Option<string>)
      ensures r.Some? <==> SettingsOf(config.file).Some?
      ensures r.Some? && status.None? ==> r.value == "offline"
      ensures r.Some? && status.Some? ==> r.value == NormalisedStatus(status.value)
    {
      if config.file.None? {
        return None;
      }
      var stored := config.Get(VpsConfigsKey);
      if stored.None? || !stored.value.Node? {
        return None;
      }
      if status.None? {
        return Some("offline");
      }
      var normalised := Strip(Lower(status.value));
      return Some(normalised);
    }
  }
}
