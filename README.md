# saasFactory project ledger, in Dafny

saasFactory is a command-line tool (`sfy`) that sets up a SaaS project. It creates a
project folder and a Linode virtual server. It installs the Coolify deployment platform
on that server and connects a GitHub repository to it. The tool keeps its state in two
files in the project folder:

- the descriptor `sf_config.yaml`. It holds the project name, the creation time, the
  provider and its settings under `vps_configs`, the instance id and address, and the
  Coolify projects under `coolify_configs.projects`;
- the secrets file `.env`. It holds the API token and the root password of the server.

This project models the code that reads and writes those two files, and the commands
that drive it:

- `yaml_store.dfy`: the descriptor store of `utils/yaml.py`. It covers `read`, `get`,
  the interactive `append`, `remove` by dotted path and `list_to_dot_notation`.
- `legacy_yaml.dfy`: the older parser of `helpers/yamlParse.py`, whose append
  overwrites without asking.
- `cli.dfy`: the helpers of `utils/cli.py`:
  - the secrets file: its upsert `addEnvVar`, python-dotenv's `set_key` and
    `load_dotenv`;
  - the two validated prompts (`get_user_choice`, `yes_no_prompt`);
  - `createEnvFile`, `createSFConfigFile` and `mb_to_gb`.
- `provider.dfy`: the Linode adapter of `vps/provider.py`. It covers asking for the root
  password, configuring, creating and destroying the instance, and reading its status.
- `coolify.dfy`: the Coolify client of `coolify/coolify.py`. It covers its prompts,
  `test_connection`, `create_project`, the deploy key, the git resource and
  `connect_github` up to its guard.
- `commands.dfy`: the dispatch and the command handlers of `main.py`.
- `text.dfy`, `documents.dfy`, `keys.dfy`, `wrappers.dfy`: shared pieces:
  - the string operations the code relies on (`strip`, `lower`, `upper`, `split('.')`,
    `int()`, `basename`);
  - the YAML value type;
  - the key names;
  - `Option` and `Outcome`.

How the model represents the world:

- **The descriptor** is the field `file: Option<Doc>` of a `YamlParser` object. `None`
  means the file does not exist. The project root is found exactly when the descriptor
  exists, because `findProjectRoot` tests for that file.
- **The secrets file** is `EnvFile.lines`, a sequence of `NAME=VALUE` lines.
- **The process** is a `Session` (`console.dfy`):
  - `input` holds the lines still to be typed at the prompts (`input()` and `getpass()`);
  - `environ` is `os.environ`.
- **End of input.** When the typed lines run out, a prompt raises `EOFError`. The
  handlers that do not catch it end in `Raised`. The conflict prompt of `append` is
  inside its own `except Exception`, so there `append` answers False and writes
  nothing.
- **Linode.** The calls that change the account (instance create and delete) are
  appended to `LinodeAccount.requests`.
- **Coolify.** The calls to the platform are appended to `CoolifyClient.requests`.
- **Answers from code outside the model** (the API, the SSH connection, key generation,
  random ids) are parameters of the operations. A status of `None` stands for a call
  that raised.

## Model

| member | source | states |
|---|---|---|
| YamlStore.ReadDoc | src/saasFactory/utils/yaml.py:14-25 | `read` gives no document exactly when the file is missing or holds an empty mapping; otherwise it gives the file's mapping |
| YamlStore.GetIn | src/saasFactory/utils/yaml.py:27-38 | `get(key)` is the value under `key` as one top-level key of the document read, and finds nothing when the read gives nothing |
| YamlStore.GetDoesNotResolveDots | src/saasFactory/utils/yaml.py:27-38 | `get("vps_configs.public_ip")` is None even when `vps_configs` holds `public_ip`: `get` does not split dotted names |
| YamlStore.Merged | src/saasFactory/utils/yaml.py:53-70 | with no shared key, the merge is the union of both mappings; with any shared key, the result has exactly the old keys, and each shared key takes the new value only when the operator answers "2" |
| YamlStore.MergeIdempotent | src/saasFactory/utils/yaml.py:50-74 | appending the same data twice, with the same answers, writes what appending it once writes |
| YamlStore.ReplaceByRemoveThenAppend | src/saasFactory/utils/yaml.py:50-124 | removing a top-level key and then appending it with a new value replaces that value and keeps every other key |
| YamlStore.RemovePathIffDescend | src/saasFactory/utils/yaml.py:97-113 | removal succeeds exactly when every key before the last leads through a mapping and the last mapping holds the final key |
| YamlStore.RemoveSucceedsIffPresent | src/saasFactory/utils/yaml.py:90-124 | removal succeeds exactly when the dotted path names a value |
| YamlStore.RemovedPathIsAbsent | src/saasFactory/utils/yaml.py:115-119 | after a removal the removed path names nothing |
| YamlStore.RemoveKeepsOtherPaths | src/saasFactory/utils/yaml.py:115-123 | a removal changes no value at any path that is neither above nor below the removed one |
| YamlStore.AppendAtExtends | src/saasFactory/coolify/coolify.py:123-130 | a nested list append leaves the old items followed by the new ones at the path |
| YamlStore.AppendAtKeepsOtherPaths | src/saasFactory/coolify/coolify.py:123-130 | a nested list append changes no value at any path that is neither above nor below the list |
| YamlStore.SplitJoined | src/saasFactory/utils/yaml.py:130-140 | splitting a `list_to_dot_notation` result by '.' recovers the segments when none holds a dot |
| YamlStore.JoinSplit | src/saasFactory/utils/yaml.py:97 | joining the pieces of any `key.split('.')` with '.' gives the key back |
| YamlStore.YamlParser.constructor | src/saasFactory/utils/yaml.py:5-12 | the parser is bound to the file's contents |
| YamlStore.Prompted | src/saasFactory/utils/yaml.py:56-64 | the keys asked about are exactly the keys of the visiting order that both documents hold with different values, and none is asked twice |
| YamlStore.TypedAnswers | src/saasFactory/utils/yaml.py:58-64 | the i-th key asked about gets the i-th typed line, and only asked keys get a line |
| YamlStore.AsksEachConflictOnce | src/saasFactory/utils/yaml.py:56-64 | whatever the visiting order, `append` asks once about each key whose values differ and about no other, so it takes as many lines as there are such keys |
| YamlStore.AppendSucceedsIffAnswered | src/saasFactory/utils/yaml.py:50-77 | `append` answers True exactly when it is given a mapping and a line is typed for every conflicting key; a False answer leaves the file as it was; on success exactly one line per conflict is used up |
| YamlStore.AppendTakesNewValueOn2 | src/saasFactory/utils/yaml.py:58-67 | on success, the conflicting key asked about i-th takes the new value exactly when the i-th typed line is "2", and keeps the old one otherwise |
| YamlStore.OneKeyAppend | src/saasFactory/utils/yaml.py:50-74 | appending a one-key mapping asks at most once: on a differing value one line decides ("2" takes the new value) and end of input gives False with nothing written; otherwise the key is set without a question |
| YamlStore.NothingAskedWhenDisjoint | src/saasFactory/utils/yaml.py:68-70 | with no shared key nothing is asked and the file becomes the union of both mappings |
| YamlStore.PartlyMergedAt | src/saasFactory/utils/yaml.py:58-67 | after some prompts, each key asked about holds the new value exactly when its line was "2", and every other key holds its old value |
| YamlStore.VisitKey | src/saasFactory/utils/yaml.py:58-67 | one pass of the prompt loop: a key with differing values consumes one typed line and takes the new value on "2"; end of input there stops the loop with nothing left to type |
| YamlStore.ResolveConflicts | src/saasFactory/utils/yaml.py:56-67 | when some key is shared, the prompt loop fails with nothing left to type exactly when the input runs out before the last conflict; otherwise it uses one line per conflict and gives the merge with those replies |
| YamlStore.YamlParser.Append | src/saasFactory/utils/yaml.py:40-77 | the answer, the new file and the lines left are those of `AppendSpec`: a non-mapping is refused unwritten; each conflicting key takes one typed line; end of input at a prompt answers False and writes nothing; the environment is untouched |
| YamlStore.YamlParser.Remove | src/saasFactory/utils/yaml.py:79-127 | True exactly when the file reads as a document and its dotted path can be removed; the file is then that document without the path, and otherwise it is unchanged |
| YamlStore.YamlParser.AppendNested | src/saasFactory/coolify/coolify.py:123-130 | True exactly when the list append at the dotted path succeeds on the document (or `{}`), and the file is then the result; otherwise it is unchanged |
| LegacyYaml.OverwriteMerge | src/saasFactory/helpers/yamlParse.py:43 | `{**current, **data}`: every key of either side, with the new value winning on shared keys |
| LegacyYaml.OverwriteIdempotent | src/saasFactory/helpers/yamlParse.py:43-46 | overwriting twice with the same data is overwriting once |
| LegacyYaml.AgreesWhenDisjoint | src/saasFactory/helpers/yamlParse.py:37-47 | on a non-empty file with disjoint keys, the older and the newer append write the same document |
| LegacyYaml.DiffersOnSharedKey | src/saasFactory/helpers/yamlParse.py:43 | for any key both documents hold with different values and an answer other than "2", the older append takes the new value and keeps every new key, while the newer one keeps the old value, keeps exactly the old keys and so drops every key only the new data holds |
| LegacyYaml.LegacyYamlParser.Read | src/saasFactory/helpers/yamlParse.py:14-25 | gives no document exactly when the file is missing or holds an empty mapping, and otherwise the file's mapping, as the newer parser does |
| LegacyYaml.LegacyYamlParser.Append | src/saasFactory/helpers/yamlParse.py:27-50 | True exactly when the argument is a mapping and the file reads as a document (`{**None}` raises); the file then holds the overwrite merge, and otherwise it is unchanged |
| Console.Session.ReadLine | src/saasFactory/utils/cli.py:220 | `input()` consumes and returns the next typed line; at end of input it returns nothing and consumes nothing |
| Cli.StartsWithIffNamed | src/saasFactory/utils/cli.py:127-128 | for names without '=', a line starts with `KEY=` exactly when the line's name is KEY, so the scan of `addEnvVar` and the name test of `set_key` agree |
| Cli.CountPositiveIffNamed | src/saasFactory/utils/cli.py:143 | some line is named `key` exactly when the count of such lines is positive |
| Cli.ReplaceNamedValues | src/saasFactory/utils/cli.py:143 | rewriting every line named `key` changes what reading the file gives only at `key`, and only when the key was present |
| Cli.EnvValuesNames | src/saasFactory/utils/cli.py:122 | reading the file gives a value for a name exactly when some line has that name |
| Cli.SetKeyValues | src/saasFactory/utils/cli.py:143 | after `set_key`, reading the file gives the new value for the key and the old value for every other name |
| Cli.SetKeyLines | src/saasFactory/utils/cli.py:143 | `set_key` keeps the lines of other names in order; it leaves one line for the key when there was none and otherwise as many as before, each holding the new value |
| Cli.SetKeyTwice | src/saasFactory/utils/cli.py:143 | setting a key twice is setting it once to the later value |
| Cli.LoadDotenv | src/saasFactory/utils/cli.py:122 | `load_dotenv` adds each name of the file that the environment lacks, with the file's value, and never overrides a name already set; a missing file adds nothing |
| Cli.EnvFile.Create | src/saasFactory/utils/cli.py:41-61 | `createEnvFile` keeps an existing secrets file and creates a missing one empty |
| Cli.AddEnvVarKeepsOrSets | src/saasFactory/utils/cli.py:104-149 | whatever `addEnvVar` answers, the secrets file is unchanged or is the `set_key` result, and only a True answer rewrites it |
| Cli.AddEnvVarWrites | src/saasFactory/utils/cli.py:133-145 | when `addEnvVar` rewrites the file, it answered True, and reading the file gives the new value for the key and the old values elsewhere |
| Cli.AddEnvVarNeedsRoot | src/saasFactory/utils/cli.py:115-118 | without a project root, `addEnvVar` answers False and reads, writes and asks nothing |
| Cli.AddEnvVar | src/saasFactory/utils/cli.py:104-149 | the answer, the new secrets file and the input left are those of the `addEnvVar` specification for the upper-cased name; the environment is loaded only when there is a project |
| Cli.FirstLineStarting | src/saasFactory/utils/cli.py:127-128 | the index found is that of the first line starting with the prefix, every earlier line does not start with it, and the number of lines means no line does |
| Cli.MentionedAt | src/saasFactory/utils/cli.py:127-128 | a line starting with `KEY=` at any position makes the scan report a match |
| Cli.NotMentioned | src/saasFactory/utils/cli.py:127-128 | when no line starts with `KEY=`, the scan reports no match, so `addEnvVar` goes straight to `set_key` |
| Cli.FirstInRange | src/saasFactory/utils/cli.py:164-178 | the first answer that parses to an index of the menu is found; every earlier answer is rejected; with none found, no answer is accepted |
| Cli.FirstInRangeAt | src/saasFactory/utils/cli.py:164-178 | the first accepted answer is unique: an accepted answer with only rejected ones before it is the one found |
| Cli.EmptyMenuAcceptsNothing | src/saasFactory/utils/cli.py:173 | a menu with no options accepts no answer |
| Cli.ShownNumberSelects | src/saasFactory/utils/cli.py:169-174 | typing the number shown in front of option i selects option i at once |
| Text.ParseShownNumber | src/saasFactory/utils/cli.py:170-172 | `int()` of the number a menu shows is that number |
| Text.UnderscoreBetweenDigits | src/saasFactory/utils/cli.py:172 | `int()` accepts "1_0" as 10: an underscore between digits is ignored |
| Text.MisplacedUnderscores | src/saasFactory/utils/cli.py:172 | `int()` refuses an underscore at either end or two in a row |
| Cli.LineAnswer | src/saasFactory/utils/cli.py:220 | a typed line is taken exactly when input remains, and it is the first line |
| Cli.ChoiceAnswer | src/saasFactory/utils/cli.py:164-178 | an accepted menu choice is a valid index of the menu |
| Cli.GetUserChoice | src/saasFactory/utils/cli.py:152-178 | the method returns the choice and the remaining input that the specification gives, and raises exactly when no answer is accepted before input ends |
| Cli.FirstYesOrNo | src/saasFactory/utils/cli.py:194-201 | the first answer accepted by `yes_no_prompt` is found; every earlier one is rejected |
| Cli.YesOrNoAnswers | src/saasFactory/utils/cli.py:195-199 | exactly "y", "Y", "n" and "N" are accepted, and "y" and "Y" mean yes |
| Cli.YesNoPrompt | src/saasFactory/utils/cli.py:181-201 | the method returns the first accepted answer and the remaining input, and raises exactly when input ends first |
| Cli.MbToGb | src/saasFactory/utils/cli.py:204-212 | the result is the largest whole number of GiB that is not above the MiB given |
| Cli.FreshInitialDocument | src/saasFactory/utils/cli.py:64-88 | in a new project the descriptor holds exactly the project name and the creation time, and nothing is asked |
| Cli.ReinitialisedDocument | src/saasFactory/utils/cli.py:83-85 | re-running init on a descriptor that holds both keys adds no key and changes no other key; a differing name is asked about first and a differing time next, one typed line each; each is replaced only when its line is "2", and end of input keeps it; the lines left are those after the prompts, or none when input ran out |
| Cli.CreateConfigFile | src/saasFactory/utils/cli.py:64-88 | a missing descriptor is created empty, then the name and the time are appended one after the other, each append prompting on a differing value; the descriptor and the lines left are those of `InitialSpec` |
| Provider.LinodeAccount.constructor | src/saasFactory/vps/provider.py:133-135 | a fresh client has sent no request |
| Provider.FirstConfirmedPair | src/saasFactory/vps/provider.py:87-96 | the password prompt stops at the first pair whose entry and confirmation are equal; every earlier pair is complete and differs; with none found, no pair matches |
| Provider.RepeatedPasswordAccepted | src/saasFactory/vps/provider.py:88-96 | a password typed twice is accepted at once, however short: the length check only warns |
| Provider.ConfirmedPasswordAtPair | src/saasFactory/vps/provider.py:87-96 | the password settled on is the entry of the first confirmed pair, and the lines left start right after that pair; no pair, no password |
| Provider.ReadConfirmedPassword | src/saasFactory/vps/provider.py:87-96 | the prompt returns exactly the password `ConfirmedPassword` settles on and leaves the lines after its pair; when the input ends before a pair matches it raises with nothing left to type |
| Provider.LinodeProvider.GetRootPassword | src/saasFactory/vps/provider.py:79-100 | without a matching pair the prompt raises, the secrets file is unchanged and nothing is left to type; otherwise it returns normally, with nothing returned, after storing the first confirmed password through `addEnvVar` |
| Provider.ProjectNameOf | src/saasFactory/vps/provider.py:215 | the project name read is the string under `project_name`, or the `project_name` inside a mapping stored there |
| Provider.InstanceLabel | src/saasFactory/vps/provider.py:216 | the instance label is the instance prefix followed by the project name |
| Provider.FirstConfigurationWritten | src/saasFactory/vps/provider.py:213-224 | in a project not configured yet, configuring writes the provider, the label and every given setting, and keeps every other key |
| Provider.ReconfigurationDropsSettings | src/saasFactory/vps/provider.py:217-221 | once `provider` is set, a configuration append drops `vps_configs` if it was missing |
| Provider.ChosenSettings | src/saasFactory/vps/provider.py:235-242 | the chosen image, region and type are entries of the catalogues offered |
| Provider.ChooseSettings | src/saasFactory/vps/provider.py:235-242 | the three menus answer exactly as `ChosenSettings` says for the input they start from, and an exhausted input raises with nothing left to type |
| Provider.ConfigureWritesOnlyOnSuccess | src/saasFactory/vps/provider.py:194-259 | `configure_instance` changes the descriptor only when it answers True; a True answer needs a project whose name can be read |
| Provider.GivenSettingsAskPerConflict | src/saasFactory/vps/provider.py:213-224 | with the settings given and a readable project name, `configure_instance` answers True exactly when a line is typed for each key the descriptor holds with another value; otherwise it answers False with the descriptor unchanged and nothing left to type |
| Provider.LinodeProvider.ConfigureInstance | src/saasFactory/vps/provider.py:194-259 | the outcome, the descriptor and the remaining input are those of the `configure_instance` specification, and the environment is untouched |
| Provider.NormalisedStatus | src/saasFactory/vps/provider.py:410 | the normalised status is lower-case with no surrounding whitespace |
| Provider.NormalisedStatusIdempotent | src/saasFactory/vps/provider.py:410 | normalising a normalised status changes nothing |
| Provider.SettingsOf | src/saasFactory/vps/provider.py:274 | the settings are the mapping `get("vps_configs")` finds, and are absent when it finds nothing or a non-mapping |
| Provider.InstancePathSplits | src/saasFactory/vps/provider.py:373-374 | the dotted paths of the instance id and the address split into `vps_configs` and that key |
| Provider.RecordInstance | src/saasFactory/vps/provider.py:313-318 | after creation, `vps_configs` holds the new id and the first address, keeps every other setting, and every other top-level key is kept |
| Provider.ForgetInstance | src/saasFactory/vps/provider.py:372-374 | after deletion, `vps_configs` holds no id and no address, keeps every other setting, and every other top-level key is kept |
| Provider.ForgetUndoesRecord | src/saasFactory/vps/provider.py:302-374 | creating and then destroying an instance gives back the descriptor from before creation, when it held neither an id nor an address |
| Provider.RemoveInstanceKey | src/saasFactory/vps/provider.py:373-374 | removing `vps_configs.<key>` removes `key` from the settings mapping, and fails when the key is absent |
| Provider.LinodeProvider.CreateInstance | src/saasFactory/vps/provider.py:261-322 | unless the settings, the root password after loading and the key pair are all present, nothing is sent or written; it raises only when `vps_configs` is not a mapping. Otherwise exactly one create call is sent, with the stored settings and the loaded password; it raises when the launch fails or gives no address, and otherwise the descriptor records the id and the address |
| Provider.RecordLaunch | src/saasFactory/vps/provider.py:311-315 | removing `vps_configs` and appending it back with the id and the address leaves the descriptor `RecordInstance` describes, and asks nothing |
| Provider.AppendAfterRemove | src/saasFactory/vps/provider.py:311-315 | appending a key just removed asks nothing, answers True, and puts the new value back with every other key kept |
| Provider.LinodeProvider.DestroyInstance | src/saasFactory/vps/provider.py:325-381 | without a stored id nothing happens, and a non-mapping `vps_configs` raises; no matching instance raises; on a yes, exactly the delete call is sent, and after a successful delete with the key folder present, the id and the address are removed; on a no, nothing changes |
| Provider.ForgetLaunch | src/saasFactory/vps/provider.py:370-372 | removing the id and then the address leaves the descriptor `ForgetInstance` describes |
| Provider.LinodeProvider.CheckInstanceStatus | src/saasFactory/vps/provider.py:383-427 | no status unless `vps_configs` is a mapping; otherwise "offline" when the lookup fails, else the normalised status |
| Coolify.DefaultOrTypedAnswers | src/saasFactory/coolify/coolify.py:107-118 | a yes takes the default, and a no takes the next typed line |
| Coolify.PromptDefaultOrTyped | src/saasFactory/coolify/coolify.py:107-118 | the method returns the default or the typed value that the specification gives, and raises when input ends |
| Coolify.ServerChoice | src/saasFactory/coolify/coolify.py:410-427 | no server gives nothing, without asking; one server is taken without asking; with several, the chosen uuid is one of theirs |
| Coolify.ServerNumberSelects | src/saasFactory/coolify/coolify.py:425-426 | with several servers, typing a server's menu number picks that server |
| Coolify.GetServerUuid | src/saasFactory/coolify/coolify.py:410-427 | the method returns what the server-choice specification gives |
| Coolify.ProjectChoice | src/saasFactory/coolify/coolify.py:397-408 | the chosen uuid belongs to one of the projects listed |
| Coolify.NoProjectNoChoice | src/saasFactory/coolify/coolify.py:406-407 | with no project, no answer is ever accepted |
| Coolify.ProjectNumberSelects | src/saasFactory/coolify/coolify.py:406-407 | typing a project's menu number picks that project |
| Coolify.GetProjectUuid | src/saasFactory/coolify/coolify.py:397-408 | the method returns what the project-choice specification gives |
| Coolify.RepoUrlChoice | src/saasFactory/coolify/coolify.py:367-382 | the repository URL is one of the premade repositories or a line the operator typed |
| Coolify.GetGithubUrl | src/saasFactory/coolify/coolify.py:367-382 | the method returns what the URL-choice specification gives |
| Coolify.ProjectDetailsAnswers | src/saasFactory/coolify/coolify.py:107-118 | a given name and description are used without asking; accepting both defaults takes two answers and gives the default name with the random id, and the default description |
| Coolify.ProjectRecord | src/saasFactory/coolify/coolify.py:125-129 | the stored project entry holds exactly the name, the description and the uuid |
| Coolify.ProjectsPathSplits | src/saasFactory/coolify/coolify.py:124 | the path of the project list splits into `coolify_configs` and `projects` |
| Coolify.RecordedProjectAppends | src/saasFactory/coolify/coolify.py:123-130 | recording a project fails only when `coolify_configs` is not a mapping or its `projects` entry is not a list; otherwise the entry is added after the existing ones |
| Coolify.CoolifyClient.constructor | src/saasFactory/coolify/coolify.py:22-29 | a new client holds no deploy key and has sent nothing |
| Coolify.CoolifyClient.TestConnection | src/saasFactory/coolify/coolify.py:67-89 | no answer without a project root; otherwise True exactly when the server list answers 200 or 201 |
| Coolify.CoolifyClient.CreateProject | src/saasFactory/coolify/coolify.py:91-142 | without a root, nothing is asked or sent; otherwise the name and description settle as specified, the create call is sent, and on 200 or 201 the project entry is appended to the descriptor and the answer is True, even when the append fails |
| Coolify.CoolifyClient.CreateDeployKey | src/saasFactory/coolify/coolify.py:190-230 | the key-creation call is sent with the prefixed random title; on 200 or 201 the key uuid is stored and the public key returned; otherwise nothing is returned |
| Coolify.CoolifyClient.CreateGitResource | src/saasFactory/coolify/coolify.py:232-274 | True exactly when a deploy key exists and the call answers 200 or 201; the payload carries branch "main", build pack "dockerfile", port "3000" and commit "HEAD"; without a key nothing is sent |
| Coolify.AskPlan | src/saasFactory/coolify/coolify.py:289-291 | the URL, repository name and project prompts answer exactly as `ConnectionPlan` says for the input they start from; an exhausted input raises with nothing left to type |
| Coolify.CoolifyClient.ConnectGithub | src/saasFactory/coolify/coolify.py:276-296 | without a root nothing happens; otherwise it asks for the URL, the repository name and the project, creates the deploy key before it chooses the server, and goes on only when a server was chosen |
| Coolify.NoProjectNoConnection | src/saasFactory/coolify/coolify.py:289-292 | with no Coolify project, connecting never reaches the deploy key |
| Commands.DispatchReachesExactlyOne | src/saasFactory/main.py:97-113 | every handler is reached from its own command line and only from it; the subcommand counts only for `vps` and `coolify` |
| Commands.CoolifyHandlesOnlyInstall | src/saasFactory/main.py:109-111 | under `coolify` only `install` reaches a handler |
| Commands.InitName | src/saasFactory/main.py:119-127 | the project name is `--name` when it is given and non-empty, and otherwise the last segment of the path, which holds no '/' |
| Commands.HandleInit | src/saasFactory/main.py:116-132 | the secrets file exists afterwards, and the descriptor and the lines left are those `InitialSpec` gives for the chosen name |
| Commands.SynthOnlyForLinode | src/saasFactory/main.py:140-167 | a provider other than "linode" or "Linode" changes nothing and asks nothing |
| Commands.SynthStoresTokenBeforeTest | src/saasFactory/main.py:142-150 | a new token is written to the secrets file before it is tested, so an invalid token stays stored while the descriptor is untouched |
| Commands.SynthWritesOnlyOnSuccess | src/saasFactory/main.py:135-169 | `vps synth` changes the descriptor only when it reports success |
| Commands.HandleVpsSynth | src/saasFactory/main.py:135-169 | the outcome, the descriptor, the secrets file and the remaining input are those of the `vps synth` specification, in which the settings append prompts per conflicting key and fails at end of input |
| Commands.SynthFailsAtConflictEndOfInput | src/saasFactory/main.py:150-159 | with settings stored that differ from the defaults, a valid token given and only "y" typed, `vps synth` reports failure, keeps the descriptor and leaves nothing to type |
| Commands.ReplacedPasswordIsNotUsed | src/saasFactory/main.py:182-185 | the secrets file is loaded before the password is asked for, so a replaced root password is written to the file while the instance is created with the old one |
| Commands.HandleVpsUp | src/saasFactory/main.py:171-185 | without a project nothing changes; a missing API token raises before anything is asked; a confirmed password goes through `addEnvVar`; at most one create call is sent, carrying the password that was loaded first |
| Commands.HandleVpsDown | src/saasFactory/main.py:188-199 | without a project nothing changes; a missing API token raises; the descriptor either stays as it was or loses the instance id and address, and at most the delete call is sent |
| Commands.HandleVpsStatus | src/saasFactory/main.py:202-213 | nothing is asked; without a project no status and no loading; otherwise the environment is loaded and the status is that of `check_instance_status` |
| Commands.HandleCoolifyInstall | src/saasFactory/main.py:215-239 | success is reported exactly when there is a project and the SSH connection succeeds; the host is what `get` gives for the dotted address key |
| Commands.InstallMissesRecordedAddress | src/saasFactory/main.py:225 | the address recorded by `create_instance` is not found by the `get` that `coolify install` uses |
| Commands.DeleteAnswers | src/saasFactory/main.py:247-255 | `--force` asks nothing; "y" and "Y" confirm; "yes" and " y" do not |
| Commands.HandleDelete | src/saasFactory/main.py:247-255 | the method returns the confirmation that the specification gives, and raises when input ends |

## Left out

- YAML and dotenv text formats. The descriptor is a parsed mapping and the secrets file
  is a list of `NAME=VALUE` lines. The model does not cover YAML parsing and dumping,
  key order, comments, quoting or blank lines.
- Printing, `tabulate`, `figlet_format`, emoji and the welcome and instruction messages.
  They are output only.
- The Linode SDK, the Coolify client library and the HTTP connection. Each answer they
  give is a parameter: a status, a catalogue, the launched instance, the number of
  instances found, whether the delete succeeded. `connect()` (how the endpoint, port and
  protocol are chosen) is not part of this model.
- `list_projects`, `list_servers` and `create_service`. The lists are given as
  parameters; `create_service` is not reached from any command.
- `test_token_client`. It only prints in `vps up`, `vps down` and `vps status`, and its
  answer is a parameter in `vps synth`.
- Key generation (`generate_ssh_key_pair`, the ed25519 deploy key) and
  `generate_random_id`. Their results are parameters. A key pair of None stands for a
  missing project root.
- vps/ssh.py and github/github_client.py:
  - `coolify install` takes the SSH connection result as a parameter and runs nothing;
  - `connect_github` is modelled up to its guard. Cloning, creating the repository, the
    `.git` prompt, pushing, uploading the deploy key and the final git resource call are
    not part of this model.
- The file system:
  - `createProjectDir` and the project folder;
  - the removal of the SSH key folder (its presence is a parameter);
  - the handlers' `os.path.exists(config_file)` test, which is the project-root test
    again.
- YamlStore.YamlParser.Append: Python visits the shared keys in the iteration order of
  a set, which the language leaves open. The visiting order is a parameter listing each
  key of the data once.
- Cli.GetUserChoice: `int()` is modelled for ASCII digits with single underscores
  between them. Python's `int()` also accepts other Unicode decimal digits; those
  answers are rejected in the model.
- Text.ParseInt: does not accept non-ASCII decimal digits, for the same reason.
- Text.Lower and Text.Upper: change ASCII letters only. Python also changes other
  letters; the model applies them to status strings and variable names.
- YamlStore.YamlParser.AppendNested: `append_nested` is called by `create_project` but
  not defined in utils/yaml.py. It is modelled as a list append at a dotted path that
  creates missing mappings and the list.
- Constants not defined in the files shown are chosen literals. These are the instance
  label prefix, the project directory suffix and the default Coolify names. The other
  constants come from the source:
  - `Keys.DefaultLinodeVpsConfig` is `DEFAULT_LINODE_VPS_CONFIG`
    (src/saasFactory/utils/globals.py:12-16);
  - the secret names and the descriptor keys are the values of `EnvVarNames`,
    `VPSKeys` and `CoolifyKeys` (src/saasFactory/utils/enums.py:4-33). main.py and
    vps/provider.py import these names from utils/globals.py, which as shown does not
    define them;
  - `created_at` is the key cli.py:85 writes, and "linode" is the `provider` value
    vps/provider.py:218 writes.
- Provider.LinodeProvider.GetRootPassword: the warning for passwords shorter than 8
  characters only prints, so it is not modelled.
- Commands.HandleDelete: `handle_delete` only prints; it deletes nothing.
- Commands.HandleVpsUp: the ensures states the outcome per case, the secrets file after
  the password, and the one create call with its password. It is not a complete
  specification of the descriptor afterwards, which `CreateInstance` states.
- Commands.HandleVpsDown: the ensures states that the descriptor is unchanged or loses
  the id and the address, and that at most the delete call is sent. It does not state
  which case happens; that is stated by `DestroyInstance`.
- Integer widths. Instance ids and statuses are unbounded integers, which Python's are
  too.
