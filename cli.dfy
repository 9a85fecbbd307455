/** The command-line helpers of utils/cli.py: the secrets file and its upsert, the two
    validated prompts, the size conversion and the creation of the project files. */
module Cli {
  import opened Wrappers
  import opened Text
  import opened Documents
  import opened Keys
  import opened Console
  import opened YamlStore

  // ----- the secrets file -----

  /** One `NAME=VALUE` line of the secrets file, split at its first '='. */
  datatype EnvLine = EnvLine(name: string, value: string)

  /** The text of a line as the file holds it (`quote_mode="never"`: no quotes). */
  function LineText(line: EnvLine): string {
    line.name + "=" + line.value
  }

  predicate StartsWith(s: string, prefix: string) {
    |prefix| <= |s| && s[..|prefix|] == prefix
  }

  predicate NoEquals(s: string) {
    forall i :: 0 <= i < |s| ==> s[i] != '='
  }

  /** The textual test of `addEnvVar` (a line starting with `KEY=`) and the key test of
      `set_key` (the parsed name equals KEY) agree on every line, as long as KEY and the
      line's name hold no '='. */
  lemma StartsWithIffNamed(line: EnvLine, key: string)
    requires NoEquals(line.name) && NoEquals(key)
    ensures StartsWith(LineText(line), key + "=") <==> line.name == key
  {
    var text := LineText(line);
    var prefix := key + "=";
    if line.name == key {
      assert text[..|prefix|] == prefix;
    }
    if StartsWith(text, prefix) {
      forall j | 0 <= j < |key|
        ensures text[j] != '='
      {
        assert text[j] == prefix[j];
      }
      assert text[|key|] == prefix[|key|];
      SameFirstEquals(text, |key|, |line.name|);
      assert line.name == text[..|key|];
    }
  }

  /** The first '=' of a string has one position. */
  lemma SameFirstEquals(text: string, a: nat, b: nat)
    requires a < |text| && b < |text| && text[a] == '=' && text[b] == '='
    requires forall j :: 0 <= j < a ==> text[j] != '='
    requires forall j :: 0 <= j < b ==> text[j] != '='
    ensures a == b
  {
  }

  /** Some line of the file starts with `KEY=`: the test of the scan in `addEnvVar`. */
  predicate Mentions(lines: seq<EnvLine>, key: string)
    decreases |lines|
  {
    |lines| > 0 && (StartsWith(LineText(lines[0]), key + "=") || Mentions(lines[1..], key))
  }

  /** A line starting with `KEY=` at any position is found by the scan. */
  lemma {:induction false} MentionedAt(lines: seq<EnvLine>, key: string, i: nat)
    requires i < |lines| && StartsWith(LineText(lines[i]), key + "=")
    ensures Mentions(lines, key)
    decreases i
  {
    if i > 0 {
      assert lines[1..][i - 1] == lines[i];
      MentionedAt(lines[1..], key, i - 1);
    }
  }

  /** When no line starts with `KEY=`, the scan finds nothing. */
  lemma {:induction false} NotMentioned(lines: seq<EnvLine>, key: string)
    requires forall j :: 0 <= j < |lines| ==> !StartsWith(LineText(lines[j]), key + "=")
    ensures !Mentions(lines, key)
    decreases |lines|
  {
    if |lines| > 0 {
      assert forall j :: 0 <= j < |lines[1..]| ==> lines[1..][j] == lines[j + 1];
      NotMentioned(lines[1..], key);
    }
  }

  /** Some line of the file is named `key`: the test of `set_key`. */
  predicate HasName(lines: seq<EnvLine>, key: string) {
    exists i :: 0 <= i < |lines| && lines[i].name == key
  }

  /** Every line named `key` rewritten to hold `value`, the rest kept. */
  function ReplaceNamed(lines: seq<EnvLine>, key: string, value: string): (r: seq<EnvLine>)
    ensures |r| == |lines|
    ensures forall i :: 0 <= i < |r| ==>
      r[i] == if lines[i].name == key then EnvLine(key, value) else lines[i]
    decreases |lines|
  {
    if |lines| == 0 then []
    else
      var last := lines[|lines| - 1];
      ReplaceNamed(lines[..|lines| - 1], key, value)
        + [if last.name == key then EnvLine(key, value) else last]
  }

  /** python-dotenv's `set_key`: every line named `key` is rewritten to hold `value`;
      when there is none, one line is appended. */
  function SetKey(lines: seq<EnvLine>, key: string, value: string): seq<EnvLine> {
    if HasName(lines, key) then ReplaceNamed(lines, key, value)
    else lines + [EnvLine(key, value)]
  }

  /** The lines with another name than `key`, in order. */
  function Others(lines: seq<EnvLine>, key: string): seq<EnvLine>
    decreases |lines|
  {
    if |lines| == 0 then []
    else
      var last := lines[|lines| - 1];
      Others(lines[..|lines| - 1], key) + (if last.name == key then [] else [last])
  }

  /** The number of lines named `key`. */
  function Count(lines: seq<EnvLine>, key: string): nat
    decreases |lines|
  {
    if |lines| == 0 then 0
    else Count(lines[..|lines| - 1], key) + (if lines[|lines| - 1].name == key then 1 else 0)
  }

  /** What reading the file with `dotenv_values` gives: each name with the value of its
      last line. */
  function EnvValues(lines: seq<EnvLine>): map<string, string>
    decreases |lines|
  {
    if |lines| == 0 then map[]
    else
      var last := lines[|lines| - 1];
      EnvValues(lines[..|lines| - 1])[last.name := last.value]
  }

  lemma {:induction false} CountPositiveIffNamed(lines: seq<EnvLine>, key: string)
    ensures Count(lines, key) > 0 <==> HasName(lines, key)
    decreases |lines|
  {
    if |lines| > 0 {
      var init := lines[..|lines| - 1];
      CountPositiveIffNamed(init, key);
      if HasName(init, key) {
        var i :| 0 <= i < |init| && init[i].name == key;
        assert lines[i].name == key;
      }
      if HasName(lines, key) && lines[|lines| - 1].name != key {
        var i :| 0 <= i < |lines| && lines[i].name == key;
        assert init[i].name == key;
      }
    }
  }

  lemma {:induction false} ReplaceNamedOthers(lines: seq<EnvLine>, key: string, value: string)
    ensures Others(ReplaceNamed(lines, key, value), key) == Others(lines, key)
    decreases |lines|
  {
    if |lines| > 0 {
      var r := ReplaceNamed(lines, key, value);
      ReplaceNamedOthers(lines[..|lines| - 1], key, value);
      assert r[..|r| - 1] == ReplaceNamed(lines[..|lines| - 1], key, value);
    }
  }

  lemma {:induction false} ReplaceNamedCount(lines: seq<EnvLine>, key: string, value: string)
    ensures Count(ReplaceNamed(lines, key, value), key) == Count(lines, key)
    decreases |lines|
  {
    if |lines| > 0 {
      var r := ReplaceNamed(lines, key, value);
      ReplaceNamedCount(lines[..|lines| - 1], key, value);
      assert r[..|r| - 1] == ReplaceNamed(lines[..|lines| - 1], key, value);
    }
  }

  lemma {:induction false} ReplaceNamedValues(lines: seq<EnvLine>, key: string, value: string)
    ensures EnvValues(ReplaceNamed(lines, key, value)) ==
      if key in EnvValues(lines) then EnvValues(lines)[key := value] else EnvValues(lines)
    decreases |lines|
  {
    if |lines| > 0 {
      var init := lines[..|lines| - 1];
      var last := lines[|lines| - 1];
      var r := ReplaceNamed(lines, key, value);
      ReplaceNamedValues(init, key, value);
      assert r[..|r| - 1] == ReplaceNamed(init, key, value);
      var before := EnvValues(init);
      if last.name == key {
        assert EnvValues(r) == EnvValues(ReplaceNamed(init, key, value))[key := value];
        assert EnvValues(lines) == before[key := last.value];
        SetThenReplace(before, key, value, last.value);
      } else {
        assert EnvValues(r) == EnvValues(ReplaceNamed(init, key, value))[last.name := last.value];
        assert EnvValues(lines) == before[last.name := last.value];
        ReplaceThenSet(before, key, value, last.name, last.value);
      }
    }
  }

  /** A key set twice holds the second value, whether or not it was there before. */
  lemma SetThenReplace(m: map<string, string>, key: string, value: string, v: string)
    ensures (if key in m then m[key := value] else m)[key := value] == m[key := v][key := value]
  {
  }

  /** Replacing `key` and then setting another name commutes. */
  lemma ReplaceThenSet(m: map<string, string>, key: string, value: string, name: string, v: string)
    requires name != key
    ensures (if key in m then m[key := value] else m)[name := v] ==
      (if key in m[name := v] then m[name := v][key := value] else m[name := v])
  {
    if key in m {
      assert m[key := value][name := v] == m[name := v][key := value];
    }
  }

  lemma {:induction false} EnvValuesNames(lines: seq<EnvLine>, key: string)
    ensures key in EnvValues(lines) <==> HasName(lines, key)
    decreases |lines|
  {
    if |lines| > 0 {
      var init := lines[..|lines| - 1];
      EnvValuesNames(init, key);
      if HasName(init, key) {
        var i :| 0 <= i < |init| && init[i].name == key;
        assert lines[i].name == key;
      }
      if HasName(lines, key) && lines[|lines| - 1].name != key {
        var i :| 0 <= i < |lines| && lines[i].name == key;
        assert init[i].name == key;
      }
    }
  }

  /** After `set_key`, reading the file gives `value` for `key` and what it gave before
      for every other name. */
  lemma SetKeyValues(lines: seq<EnvLine>, key: string, value: string)
    ensures EnvValues(SetKey(lines, key, value)) == EnvValues(lines)[key := value]
  {
    EnvValuesNames(lines, key);
    ReplaceNamedValues(lines, key, value);
    if !HasName(lines, key) {
      var r := lines + [EnvLine(key, value)];
      assert r[..|r| - 1] == lines;
    }
  }

  /** `set_key` keeps every line of another name, in order, and leaves at least one
      line named `key`, exactly one when there was at most one before. */
  lemma SetKeyLines(lines: seq<EnvLine>, key: string, value: string)
    ensures Others(SetKey(lines, key, value), key) == Others(lines, key)
    ensures Count(SetKey(lines, key, value), key) == if Count(lines, key) == 0 then 1 else Count(lines, key)
    ensures forall i :: 0 <= i < |SetKey(lines, key, value)| && SetKey(lines, key, value)[i].name == key ==>
      SetKey(lines, key, value)[i].value == value
  {
    CountPositiveIffNamed(lines, key);
    ReplaceNamedOthers(lines, key, value);
    ReplaceNamedCount(lines, key, value);
    if !HasName(lines, key) {
      var r := lines + [EnvLine(key, value)];
      assert r[..|r| - 1] == lines;
    }
  }

  /** Setting the same key twice is setting it once, to the later value. */
  lemma SetKeyTwice(lines: seq<EnvLine>, key: string, v1: string, v2: string)
    ensures SetKey(SetKey(lines, key, v1), key, v2) == SetKey(lines, key, v2)
  {
    var once := SetKey(lines, key, v1);
    var r := lines + [EnvLine(key, v1)];
    assert r[|r| - 1].name == key;
    assert HasName(once, key);
  }

  /** `load_dotenv(path)`: every name of the file that the environment does not hold yet
      is added with its value from the file; names already present keep their value (no
      override). A missing file adds nothing. */
  function LoadDotenv(environ: map<string, string>, file: Option<seq<EnvLine>>): (r: map<string, string>)
    ensures file.None? ==> r == environ
    ensures file.Some? ==> r.Keys == environ.Keys + EnvValues(file.value).Keys
    ensures forall k :: k in environ ==> k in r && r[k] == environ[k]
    ensures file.Some? ==> forall k :: k in EnvValues(file.value) && k !in environ ==> r[k] == EnvValues(file.value)[k]
  {
    match file
    case None => environ
    case Some(lines) =>
      var values := EnvValues(lines);
      map k | k in environ.Keys + values.Keys :: if k in environ then environ[k] else values[k]
  }

  /** A secrets file: None while `.env` does not exist. */
  class EnvFile {
    var lines: Option<seq<EnvLine>>

    constructor (lines: Option<seq<EnvLine>>)
      ensures this.lines == lines
    {
      this.lines := lines;
    }

    /** `createEnvFile` on the project directory: an existing file is kept, a missing
        one is created empty. */
    method Create()
      modifies this
      ensures lines == if old(lines).Some? then old(lines) else Some([])
      ensures lines.Some?
    {
      if lines.None? {
        lines := Some([]);
      }
    }
  }

  /** The result of `addEnvVar`: what it returns, the secrets file after it and the
      input left after its prompt. */
  datatype EnvUpdate = EnvUpdate(ok: bool, lines: Option<seq<EnvLine>>, input: seq<string>)

  /** `addEnvVar(name, value)` as a function of the state it starts from, with
      key = name upper-cased. No project: False. No secrets file: the read raises, False.
      No line starting with `KEY=`: `set_key`, True. Otherwise one answer is read,
      stripped: "1" keeps the file (True), "2" runs `set_key` (True), anything else
      keeps the file (False); end of input raises EOFError, which is caught (False). */
  function AddEnvVarSpec(hasRoot: bool, lines: Option<seq<EnvLine>>, input: seq<string>, key: string, value: string): EnvUpdate
  {
    if !hasRoot || lines.None? then EnvUpdate(false, lines, input)
    else if !Mentions(lines.value, key) then EnvUpdate(true, Some(SetKey(lines.value, key, value)), input)
    else if |input| == 0 then EnvUpdate(false, lines, input)
    else
      var choice := Strip(input[0]);
      if choice == "1" then EnvUpdate(true, lines, input[1..])
      else if choice == "2" then EnvUpdate(true, Some(SetKey(lines.value, key, value)), input[1..])
      else EnvUpdate(false, lines, input[1..])
  }

  /** Whatever `addEnvVar` answers, the secrets file is either unchanged or the result
      of `set_key` with the upper-cased name; it is rewritten only with a True answer. */
  lemma AddEnvVarKeepsOrSets(hasRoot: bool, lines: Option<seq<EnvLine>>, input: seq<string>, key: string, value: string)
    ensures var u := AddEnvVarSpec(hasRoot, lines, input, key, value);
      u.lines == lines || (u.ok && lines.Some? && u.lines == Some(SetKey(lines.value, key, value)))
  {
  }

  /** When `addEnvVar` rewrites the file, reading it back gives the new value for the
      key and the old values for every other name. */
  lemma AddEnvVarWrites(hasRoot: bool, lines: Option<seq<EnvLine>>, input: seq<string>, key: string, value: string)
    requires AddEnvVarSpec(hasRoot, lines, input, key, value).lines != lines
    ensures var u := AddEnvVarSpec(hasRoot, lines, input, key, value);
      && u.ok && u.lines.Some?
      && EnvValues(u.lines.value) == EnvValues(lines.value)[key := value]
  {
    SetKeyValues(lines.value, key, value);
  }

  /** Without a project root nothing is read, written or prompted for. */
  lemma AddEnvVarNeedsRoot(lines: Option<seq<EnvLine>>, input: seq<string>, key: string, value: string)
    ensures AddEnvVarSpec(false, lines, input, key, value) == EnvUpdate(false, lines, input)
  {
  }

  /** `addEnvVar`: store `value` under the upper-cased `name` in the secrets file of the
      project, asking whether to keep or replace a line that already starts with
      `NAME=`. The project root exists exactly when `config`'s file does. */
  method AddEnvVar(config: YamlParser, env: EnvFile, session: Session, name: string, value: string)
    returns (ok: bool)
    modifies env, session
    ensures var u := AddEnvVarSpec(old(config.file).Some?, old(env.lines), old(session.input), Upper(name), value);
      ok == u.ok && env.lines == u.lines && session.input == u.input
    ensures session.environ ==
      if config.file.Some? then LoadDotenv(old(session.environ), old(env.lines)) else old(session.environ)
  {
    ghost var typed := session.input;
    if config.file.None? {
      return false;
    }
    session.environ := LoadDotenv(session.environ, env.lines);
    if env.lines.None? {
      return false;
    }
    var lines := env.lines.value;
    var key := Upper(name);
    var i := FirstLineStarting(lines, key + "=");
    if i == |lines| {
      UnmentionedSpec(lines, typed, key, value);
    } else {
      AnsweredSpec(lines, typed, key, value, i);
      var answer := session.ReadLine();
      if answer.None? {
        return false;
      }
      var choice := Strip(answer.value);
      if choice == "1" {
        return true;
      } else if choice != "2" {
        return false;
      }
    }
    env.lines := Some(SetKey(lines, key, value));
    ok := true;
  }

  /** The scan of `addEnvVar`: the index of the first line starting with `prefix`, or
      the number of lines when there is none. */
  method FirstLineStarting(lines: seq<EnvLine>, prefix: string) returns (i: nat)
    ensures i <= |lines|
    ensures i < |lines| ==> StartsWith(LineText(lines[i]), prefix)
    ensures forall j :: 0 <= j < i ==> !StartsWith(LineText(lines[j]), prefix)
  {
    i := 0;
    while i < |lines|
      invariant i <= |lines|
      invariant forall j :: 0 <= j < i ==> !StartsWith(LineText(lines[j]), prefix)
    {
      if StartsWith(LineText(lines[i]), prefix) {
        return;
      }
      i := i + 1;
    }
  }

  /** The branch of `addEnvVar` taken when line `i` starts with `KEY=`. */
  lemma AnsweredSpec(lines: seq<EnvLine>, input: seq<string>, key: string, value: string, i: nat)
    requires i < |lines| && StartsWith(LineText(lines[i]), key + "=")
    ensures AddEnvVarSpec(true, Some(lines), input, key, value) ==
      if |input| == 0 then EnvUpdate(false, Some(lines), input)
      else if Strip(input[0]) == "1" then EnvUpdate(true, Some(lines), input[1..])
      else if Strip(input[0]) == "2" then EnvUpdate(true, Some(SetKey(lines, key, value)), input[1..])
      else EnvUpdate(false, Some(lines), input[1..])
  {
    MentionedAt(lines, key, i);
  }

  /** The branch of `addEnvVar` taken when no line starts with `KEY=`. */
  lemma UnmentionedSpec(lines: seq<EnvLine>, input: seq<string>, key: string, value: string)
    requires forall j :: 0 <= j < |lines| ==> !StartsWith(LineText(lines[j]), key + "=")
    ensures AddEnvVarSpec(true, Some(lines), input, key, value) == EnvUpdate(true, Some(SetKey(lines, key, value)), input)
  {
    NotMentioned(lines, key);
  }

  // ----- validated prompts -----

  /** Every typed answer passed through `int(...)`. */
  function Parsed(input: seq<string>): (values: seq<Option<int>>)
    ensures |values| == |input|
    ensures forall i :: 0 <= i < |input| ==> values[i] == ParseInt(input[i])
  {
    seq(|input|, i requires 0 <= i < |input| => ParseInt(input[i]))
  }

  /** An answer `get_user_choice` accepts for a menu of `n` options: `int(answer)`
      succeeds and lies in [0, n). */
  predicate InRange(v: Option<int>, n: int) {
    v.Some? && 0 <= v.value < n
  }

  /** The position of the first accepted answer, if any. */
  function FirstInRange(values: seq<Option<int>>, n: int): (j: Option<nat>)
    ensures j.Some? ==> j.value < |values| && InRange(values[j.value], n)
    ensures j.Some? ==> forall i :: 0 <= i < j.value ==> !InRange(values[i], n)
    ensures j.None? ==> forall i :: 0 <= i < |values| ==> !InRange(values[i], n)
    decreases |values|
  {
    if |values| == 0 then None
    else if InRange(values[0], n) then Some(0)
    else match FirstInRange(values[1..], n)
      case Some(j) => Some(j + 1)
      case None => None
  }

  lemma FirstInRangeAt(values: seq<Option<int>>, n: int, k: nat)
    requires k < |values| && InRange(values[k], n)
    requires forall i :: 0 <= i < k ==> !InRange(values[i], n)
    ensures FirstInRange(values, n) == Some(k)
  {
  }

  /** A menu with no options accepts no answer: the prompt repeats until input ends. */
  lemma EmptyMenuAcceptsNothing(input: seq<string>)
    ensures FirstInRange(Parsed(input), 0) == None
  {
  }

  /** Typing the number shown in front of an option selects that option at once. */
  lemma ShownNumberSelects(i: nat, n: nat, rest: seq<string>)
    requires i < n
    ensures FirstInRange(Parsed([NatToString(i)] + rest), n) == Some(0)
    ensures ParseInt(NatToString(i)) == Some(i)
  {
    ParseShownNumber(i);
    assert Parsed([NatToString(i)] + rest)[0] == Some(i);
  }

  /** An answer accepted at a prompt, and the typed lines left after it. */
  datatype Answered<T> = Answered(value: T, rest: seq<string>)

  /** `input(...)`: the next typed line, or None when input has ended (EOFError). */
  function LineAnswer(input: seq<string>): (a: Option<Answered<string>>)
    ensures a.Some? <==> |input| > 0
    ensures a.Some? ==> [a.value.value] + a.value.rest == input
  {
    if |input| == 0 then None else Some(Answered(input[0], input[1..]))
  }

  /** What `get_user_choice` makes of the typed lines for a menu of `n` options: the
      index typed in the first accepted answer and what is left after it, or None when
      the input ends first. */
  function ChoiceAnswer(input: seq<string>, n: int): (a: Option<Answered<int>>)
    ensures a.Some? ==> 0 <= a.value.value < n
  {
    match FirstInRange(Parsed(input), n)
    case Some(j) => Some(Answered(Parsed(input)[j].value, input[j + 1..]))
    case None => None
  }

  /** `get_user_choice(options)`: prompts until an answer parses to an index of
      `options`, and returns that index; end of input raises EOFError, which escapes. */
  method GetUserChoice(session: Session, options: seq<string>) returns (r: Outcome<int>)
    modifies session
    ensures session.environ == old(session.environ)
    ensures ChoiceAnswer(old(session.input), |options|) ==
      if r.Returned? then Some(Answered(r.value, session.input)) else None
    ensures r.Raised? ==> session.input == []
  {
    ghost var consumed := 0;
    while true
      invariant 0 <= consumed <= |old(session.input)|
      invariant session.input == old(session.input)[consumed..]
      invariant forall i :: 0 <= i < consumed ==> !InRange(ParseInt(old(session.input)[i]), |options|)
      invariant session.environ == old(session.environ)
      decreases |session.input|
    {
      var line := session.ReadLine();
      if line.None? {
        NoChoice(old(session.input), |options|);
        return Raised;
      }
      var choice := ParseInt(line.value);
      if choice.Some? && 0 <= choice.value < |options| {
        ChoiceAt(old(session.input), |options|, consumed);
        return Returned(choice.value);
      }
      consumed := consumed + 1;
    }
  }

  /** The first answer that parses into range is the choice made. */
  lemma ChoiceAt(input: seq<string>, n: int, k: nat)
    requires k < |input| && InRange(ParseInt(input[k]), n)
    requires forall i :: 0 <= i < k ==> !InRange(ParseInt(input[i]), n)
    ensures ChoiceAnswer(input, n) == Some(Answered(ParseInt(input[k]).value, input[k + 1..]))
  {
    var values := Parsed(input);
    FirstInRangeAt(values, n, k);
    assert FirstInRange(values, n) == Some(k);
  }

  /** When no answer parses into range, no choice is made. */
  lemma NoChoice(input: seq<string>, n: int)
    requires forall i :: 0 <= i < |input| ==> !InRange(ParseInt(input[i]), n)
    ensures ChoiceAnswer(input, n) == None
  {
    var values := Parsed(input);
    assert forall i :: 0 <= i < |values| ==> !InRange(values[i], n);
  }

  /** An answer `yes_no_prompt` accepts: 'y' or 'n' once lower-cased (not stripped). */
  predicate YesOrNo(answer: string) {
    Lower(answer) == "y" || Lower(answer) == "n"
  }

  /** The position of the first accepted answer, if any. */
  function FirstYesOrNo(input: seq<string>): (j: Option<nat>)
    ensures j.Some? ==> j.value < |input| && YesOrNo(input[j.value])
    ensures j.Some? ==> forall i :: 0 <= i < j.value ==> !YesOrNo(input[i])
    ensures j.None? ==> forall i :: 0 <= i < |input| ==> !YesOrNo(input[i])
    decreases |input|
  {
    if |input| == 0 then None
    else if YesOrNo(input[0]) then Some(0)
    else match FirstYesOrNo(input[1..])
      case Some(j) => Some(j + 1)
      case None => None
  }

  /** Exactly the one-letter answers y, Y, n and N are accepted; "y" and "Y" mean yes. */
  lemma YesOrNoAnswers(answer: string)
    ensures YesOrNo(answer) <==> answer in {"y", "Y", "n", "N"}
    ensures YesOrNo(answer) ==> (Lower(answer) == "y" <==> answer in {"y", "Y"})
  {
    if YesOrNo(answer) {
      assert |answer| == 1;
      assert Lower(answer)[0] == LowerChar(answer[0]);
      assert answer == [answer[0]];
    }
    if answer in {"y", "Y", "n", "N"} {
      assert |answer| == 1;
      assert Lower(answer) == [LowerChar(answer[0])];
    }
  }

  /** What `yes_no_prompt` makes of the typed lines: True for the first accepted answer
      that is 'y' or 'Y', False for 'n' or 'N', with what is left after it; None when
      the input ends first. */
  function YesNoAnswer(input: seq<string>): Option<Answered<bool>> {
    match FirstYesOrNo(input)
    case Some(j) => Some(Answered(Lower(input[j]) == "y", input[j + 1..]))
    case None => None
  }

  /** `yes_no_prompt`: prompts until the lower-cased answer is 'y' (True) or 'n'
      (False); end of input raises EOFError, which escapes. */
  method YesNoPrompt(session: Session) returns (r: Outcome<bool>)
    modifies session
    ensures session.environ == old(session.environ)
    ensures YesNoAnswer(old(session.input)) ==
      if r.Returned? then Some(Answered(r.value, session.input)) else None
    ensures r.Raised? ==> session.input == []
  {
    ghost var consumed := 0;
    while true
      invariant 0 <= consumed <= |old(session.input)|
      invariant session.input == old(session.input)[consumed..]
      invariant forall i :: 0 <= i < consumed ==> !YesOrNo(old(session.input)[i])
      invariant session.environ == old(session.environ)
      decreases |session.input|
    {
      var line := session.ReadLine();
      if line.None? {
        return Raised;
      }
      var response := Lower(line.value);
      if response == "y" {
        assert YesOrNo(old(session.input)[consumed]);
        return Returned(true);
      } else if response == "n" {
        assert YesOrNo(old(session.input)[consumed]);
        return Returned(false);
      }
      consumed := consumed + 1;
    }
  }

  // ----- sizes -----

  /** `mb_to_gb`: floor division by 1024, so the result is the largest whole number of
      GiB not above `mb`. */
  function MbToGb(mb: int): (gb: int)
    ensures gb * 1024 <= mb < gb * 1024 + 1024
  {
    mb / 1024
  }

  // ----- project files -----

  /** What `createSFConfigFile` leaves, starting from the descriptor `file` (created
      empty when missing): `{project_name: name}` is appended, then `{created_at:
      time}`, each append asking about its key when the descriptor holds another value. */
  function InitialSpec(file: Option<Doc>, name: string, time: string, input: seq<string>): Appended {
    var named := AppendOne(if file.None? then Some(map[]) else file, ProjectNameKey, Leaf(name), input);
    AppendOne(named.file, CreatedAtKey, Leaf(time), named.input)
  }

  /** In a new project the descriptor holds exactly the name and the creation time, and
      nothing is asked. */
  lemma FreshInitialDocument(file: Option<Doc>, name: string, time: string, input: seq<string>)
    requires Loaded(file) == map[]
    ensures InitialSpec(file, name, time, input) ==
      Appended(true, Some(map[ProjectNameKey := Leaf(name), CreatedAtKey := Leaf(time)]), input)
  {
    var named := map[ProjectNameKey := Leaf(name)];
    assert Loaded(Some(named)) == named;
  }

  /** Re-running init on a project that holds both keys adds no key. The name is asked
      about when it differs, then the time when it differs, one typed line each; "2"
      replaces the value, and any other line or end of input keeps it. */
  lemma ReinitialisedDocument(d: Doc, name: string, time: string, input: seq<string>)
    requires ProjectNameKey in d && CreatedAtKey in d
    ensures var r := InitialSpec(Some(d), name, time, input);
      var n := if d[ProjectNameKey] != Leaf(name) then 1 else 0;
      var m := if d[CreatedAtKey] != Leaf(time) then 1 else 0;
      && r.file.Some? && r.file.value.Keys == d.Keys
      && r.file.value[ProjectNameKey] ==
           (if n == 1 && |input| > 0 && input[0] == "2" then Leaf(name) else d[ProjectNameKey])
      && r.file.value[CreatedAtKey] ==
           (if m == 1 && |input| > n && input[n] == "2" then Leaf(time) else d[CreatedAtKey])
      && (forall k :: k in d && k != ProjectNameKey && k != CreatedAtKey ==> r.file.value[k] == d[k])
      && r.input == if |input| < n + m then [] else input[n + m..]
  {
    assert Loaded(Some(d)) == d;
    var named := AppendOne(Some(d), ProjectNameKey, Leaf(name), input);
    assert Loaded(named.file) == named.file.value;
    if d[ProjectNameKey] != Leaf(name) && d[CreatedAtKey] != Leaf(time) && |input| > 1 {
      assert input[1..][1..] == input[2..];
    }
  }

  /** `createSFConfigFile`: create the descriptor when it is missing, then append the
      project name and the creation time, each append prompting on a conflict. The
      answers of the appends are not looked at. */
  method CreateConfigFile(config: YamlParser, session: Session, name: string, time: string)
    modifies config, session
    ensures session.environ == old(session.environ)
    ensures var r := InitialSpec(old(config.file), name, time, old(session.input));
      config.file == r.file && session.input == r.input
  {
    if config.file.None? {
      config.file := Some(map[]);
    }
    OneKeyAppend(config.file, ProjectNameKey, Leaf(name), session.input);
    var namedOk := config.Append(session, Node(map[ProjectNameKey := Leaf(name)]), [ProjectNameKey]);
    OneKeyAppend(config.file, CreatedAtKey, Leaf(time), session.input);
    var timedOk := config.Append(session, Node(map[CreatedAtKey := Leaf(time)]), [CreatedAtKey]);
  }
}
