/** The project descriptor store (`YAMLParser` in utils/yaml.py): a file holding one
    nested mapping, re-read on every call, merged into with a keep/replace decision per
    conflicting key, and pruned by dotted path. */
module YamlStore {
  import opened Wrappers
  import opened Documents
  import opened Text
  import opened Console

  // ----- reading -----

  /** `read`: the parsed document, where a missing file and content that parses to
      something falsy (an empty mapping) both read as None. */
  function ReadDoc(file: Option<Doc>): (r: Option<Doc>)
    ensures r.Some? ==> r == file && r.value != map[]
    ensures r.None? ==> file.None? || file.value == map[]
  {
    if file.Some? && file.value != map[] then file else None
  }

  /** `self.read() or {}`: the document a merge starts from. */
  function Loaded(file: Option<Doc>): Doc {
    match ReadDoc(file)
    case Some(d) => d
    case None => map[]
  }

  /** `get(key)`: a lookup of `key` as ONE top-level key. A dotted key is not split, so
      it is the one-segment path `[key]`, whatever dots it holds. */
  function GetIn(file: Option<Doc>, key: string): (r: Option<Value>)
    ensures r == LookupPath(Loaded(file), [key])
    ensures r.Some? ==> ReadDoc(file).Some?
  {
    match ReadDoc(file)
    case Some(d) => if key in d then Some(d[key]) else None
    case None => None
  }

  /** The nested public address is invisible to `get` under its dotted name: the tool
      stores it under `vps_configs`, and `get("vps_configs.public_ip")` looks for a
      top-level key spelled with the dot. */
  lemma GetDoesNotResolveDots(rest: Doc, ip: string)
    requires "vps_configs.public_ip" !in rest
    ensures var d := rest["vps_configs" := Node(map["public_ip" := Leaf(ip)])];
      && GetIn(Some(d), "vps_configs.public_ip") == None
      && LookupPath(d, ["vps_configs", "public_ip"]) == Some(Leaf(ip))
  {
    var d := rest["vps_configs" := Node(map["public_ip" := Leaf(ip)])];
    assert "vps_configs.public_ip" != "vps_configs";
    assert ["vps_configs", "public_ip"][1..] == ["public_ip"];
  }

  // ----- merging (append) -----

  /** The document `append` writes. With no shared key, the new keys are added. As soon
      as one key is shared, only shared keys can change: each one whose values differ
      takes the new value exactly when the operator answers "2", and every key that is
      new is dropped. */
  function Merged(cur: Doc, data: Doc, answer: string -> string): (r: Doc)
    ensures cur.Keys !! data.Keys ==>
      && r.Keys == cur.Keys + data.Keys
      && (forall k :: k in cur ==> r[k] == cur[k])
      && (forall k :: k in data ==> r[k] == data[k])
    ensures !(cur.Keys !! data.Keys) ==>
      && r.Keys == cur.Keys
      && (forall k :: k in cur ==> r[k] == if k in data && answer(k) == "2" then data[k] else cur[k])
  {
    if cur.Keys !! data.Keys then cur + data
    else map k | k in cur :: if k in data && cur[k] != data[k] && answer(k) == "2" then data[k] else cur[k]
  }

  /** Appending the same data a second time, with the same answers, changes nothing. */
  lemma MergeIdempotent(cur: Doc, data: Doc, answer: string -> string)
    ensures Merged(Merged(cur, data, answer), data, answer) == Merged(cur, data, answer)
  {
    var once := Merged(cur, data, answer);
    var twice := Merged(once, data, answer);
    if data != map[] {
      if cur.Keys !! data.Keys {
        var k0 :| k0 in data;
        assert k0 in once;
      } else {
        var k0 :| k0 in cur && k0 in data;
        assert k0 in once;
      }
      assert !(once.Keys !! data.Keys);
      assert twice.Keys == once.Keys;
      forall k | k in once
        ensures twice[k] == once[k]
      {
        if k in data && answer(k) == "2" {
          assert once[k] == data[k];
        }
      }
    } else {
      assert once == cur;
    }
  }

  /** Removing a top-level key and appending it back with a new value replaces that one
      value and keeps every other key: the write-back that follows instance creation. */
  lemma ReplaceByRemoveThenAppend(d: Doc, k: string, v: Value, answer: string -> string)
    ensures Merged(Loaded(Some(d - {k})), map[k := v], answer) == d[k := v]
  {
    var rest := d - {k};
    assert Loaded(Some(rest)) == rest;
    assert rest.Keys !! map[k := v].Keys;
    var r := Merged(rest, map[k := v], answer);
    assert r.Keys == d[k := v].Keys;
    forall j | j in r
      ensures r[j] == d[k := v][j]
    {
    }
  }

  // ----- the conflict prompts of append -----

  /** A key both documents hold with different values: `append` asks about it. */
  predicate Conflicting(cur: Doc, data: Doc, k: string) {
    k in cur && k in data && cur[k] != data[k]
  }

  /** The keys `append` asks about, whatever order it visits them in. */
  function Conflicts(cur: Doc, data: Doc): set<string> {
    set k | k in cur && k in data && cur[k] != data[k]
  }

  /** No key listed twice (checked from the last one back). */
  predicate Distinct(keys: seq<string>)
    decreases |keys|
  {
    |keys| == 0 || (keys[|keys| - 1] !in keys[..|keys| - 1] && Distinct(keys[..|keys| - 1]))
  }

  /** In a list without repeats, no key occurs before its own position. */
  lemma {:induction false} DistinctAt(keys: seq<string>, i: nat)
    requires Distinct(keys) && i < |keys|
    ensures keys[i] !in keys[..i]
    ensures Distinct(keys[..i])
    decreases |keys|
  {
    var n := |keys| - 1;
    if i < n {
      DistinctAt(keys[..n], i);
      assert keys[..n][..i] == keys[..i];
    } else {
      assert keys[..i] == keys[..n];
    }
  }

  /** The order in which `append` visits the keys of `data`. Python walks the shared
      keys in the iteration order of a set, which the language leaves open; the model
      takes it as a parameter listing every key of the data once. */
  predicate VisitOrder(order: seq<string>, data: Doc) {
    Distinct(order) && forall k :: k in data ==> k in order
  }

  /** The keys `append` asks about, in the order it asks: those of `order` that
      conflict. */
  function Prompted(cur: Doc, data: Doc, order: seq<string>): (keys: seq<string>)
    ensures |keys| <= |order|
    ensures forall k {:trigger k in keys} :: k in keys <==> k in order && Conflicting(cur, data, k)
    ensures Distinct(order) ==> Distinct(keys)
    decreases |order|
  {
    if |order| == 0 then []
    else
      var init := order[..|order| - 1];
      var keys := Prompted(cur, data, init);
      var k := order[|order| - 1];
      assert forall j :: j in init ==> j in order;
      if Conflicting(cur, data, k) then
        assert Distinct(order) ==> k !in init;
        keys + [k]
      else keys
  }

  /** The line typed at each prompt: the i-th key asked about gets the i-th line. */
  function TypedAnswers(keys: seq<string>, input: seq<string>): (m: map<string, string>)
    requires |keys| <= |input|
    ensures forall k {:trigger k in m} :: k in m <==> k in keys
    ensures Distinct(keys) ==> forall i :: 0 <= i < |keys| ==> m[keys[i]] == input[i]
    decreases |keys|
  {
    if |keys| == 0 then map[]
    else TypedAnswers(keys[..|keys| - 1], input)[keys[|keys| - 1] := input[|keys| - 1]]
  }

  /** The reply to the prompt about a key; a key never asked about never has its reply
      consulted. */
  function ReplyOf(answers: map<string, string>): string -> string {
    k => if k in answers then answers[k] else ""
  }

  /** What `append` leaves: its answer, the descriptor and the lines still to be typed. */
  datatype Appended = Appended(ok: bool, file: Option<Doc>, input: seq<string>)

  /** `append` as a function of the state it starts from. A non-mapping is refused.
      Each conflicting key, in visiting order, takes one typed line; when the lines run
      out first, `input()` raises EOFError, the handler answers False and nothing is
      written. Otherwise the merge with those replies is written. */
  function AppendSpec(file: Option<Doc>, data: Value, order: seq<string>, input: seq<string>): Appended {
    if !data.Node? then Appended(false, file, input)
    else
      var cur := Loaded(file);
      var keys := Prompted(cur, data.fields, order);
      if |input| < |keys| then Appended(false, file, [])
      else Appended(true, Some(Merged(cur, data.fields, ReplyOf(TypedAnswers(keys, input)))), input[|keys|..])
  }

  /** Visiting more of the order never asks about fewer keys. */
  lemma {:induction false} PromptedGrows(cur: Doc, data: Doc, order: seq<string>, i: nat)
    requires i <= |order|
    ensures |Prompted(cur, data, order[..i])| <= |Prompted(cur, data, order)|
    decreases |order| - i
  {
    if i < |order| {
      PromptedGrows(cur, data, order, i + 1);
      assert order[..i + 1][..i] == order[..i];
    } else {
      assert order[..i] == order;
    }
  }

  /** A sequence without repeats has as many elements as the set of them. */
  lemma {:induction false} DistinctCount(keys: seq<string>)
    requires Distinct(keys)
    ensures |set k | k in keys| == |keys|
    decreases |keys|
  {
    if |keys| > 0 {
      var init := keys[..|keys| - 1];
      var last := keys[|keys| - 1];
      DistinctCount(init);
      assert (set k | k in keys) == (set k | k in init) + {last};
      assert last !in (set k | k in init);
    }
  }

  /** Whatever the visiting order, `append` asks exactly once about each conflicting
      key, so it takes as many lines as there are conflicts. */
  lemma AsksEachConflictOnce(cur: Doc, data: Doc, order: seq<string>)
    requires VisitOrder(order, data)
    ensures var keys := Prompted(cur, data, order);
      && Distinct(keys)
      && (forall k :: k in keys <==> k in Conflicts(cur, data))
      && |keys| == |Conflicts(cur, data)|
  {
    var keys := Prompted(cur, data, order);
    assert (set k | k in keys) == Conflicts(cur, data);
    DistinctCount(keys);
  }

  /** `append` answers True exactly when it is given a mapping and a line is typed at
      every conflict prompt; a False answer leaves the descriptor as it was. */
  lemma AppendSucceedsIffAnswered(file: Option<Doc>, data: Value, order: seq<string>, input: seq<string>)
    requires data.Node? ==> VisitOrder(order, data.fields)
    ensures var a := AppendSpec(file, data, order, input);
      && (a.ok <==> data.Node? && |Conflicts(Loaded(file), data.fields)| <= |input|)
      && (!a.ok ==> a.file == file)
      && (a.ok ==> a.input == input[|Conflicts(Loaded(file), data.fields)|..])
  {
    if data.Node? {
      AsksEachConflictOnce(Loaded(file), data.fields, order);
    }
  }

  /** On success, the conflicting key asked about i-th takes the new value exactly when
      the i-th typed line is "2"; every other key is as `Merged` says. */
  lemma AppendTakesNewValueOn2(file: Option<Doc>, data: Doc, order: seq<string>, input: seq<string>, i: nat)
    requires VisitOrder(order, data)
    requires AppendSpec(file, Node(data), order, input).ok
    requires i < |Prompted(Loaded(file), data, order)|
    ensures var k := Prompted(Loaded(file), data, order)[i];
      && Conflicting(Loaded(file), data, k)
      && AppendSpec(file, Node(data), order, input).file.value[k] ==
           if input[i] == "2" then data[k] else Loaded(file)[k]
  {
    var keys := Prompted(Loaded(file), data, order);
    assert keys[i] in keys;
  }

  /** An append of one key: when the descriptor holds the key with another value, one
      typed line decides ("2" takes the new value, anything else keeps the old), and
      end of input leaves the descriptor as it was, like keeping. Otherwise the key is
      set without a question. */
  function AppendOne(file: Option<Doc>, k: string, v: Value, input: seq<string>): Appended {
    var cur := Loaded(file);
    if k in cur && cur[k] != v then
      if |input| == 0 then Appended(false, file, [])
      else Appended(true, Some(cur[k := if input[0] == "2" then v else cur[k]]), input[1..])
    else Appended(true, Some(cur[k := v]), input)
  }

  /** `append` of a one-key mapping asks at most once and behaves as `AppendOne`. */
  lemma OneKeyAppend(file: Option<Doc>, k: string, v: Value, input: seq<string>)
    ensures AppendSpec(file, Node(map[k := v]), [k], input) == AppendOne(file, k, v, input)
  {
    var cur := Loaded(file);
    var data := map[k := v];
    assert [k][..0] == [];
    var keys := Prompted(cur, data, [k]);
    if k in cur && cur[k] != v {
      assert keys == [k];
      if |input| > 0 {
        var m := Merged(cur, data, ReplyOf(TypedAnswers(keys, input)));
        assert m == cur[k := if input[0] == "2" then v else cur[k]];
      }
    } else {
      assert keys == [];
      assert input[0..] == input;
      var m := Merged(cur, data, ReplyOf(TypedAnswers(keys, input)));
      assert m == cur[k := v];
    }
  }

  /** With no shared key nothing is asked and the new keys are added. */
  lemma NothingAskedWhenDisjoint(cur: Doc, data: Doc, order: seq<string>, input: seq<string>)
    requires cur.Keys * data.Keys == {}
    ensures Prompted(cur, data, order) == []
    ensures Merged(cur, data, ReplyOf(TypedAnswers([], input))) == cur + data
    ensures input[0..] == input
  {
    assert cur.Keys !! data.Keys by {
      forall k | k in cur
        ensures k !in data
      {
        assert k !in cur.Keys * data.Keys;
      }
    }
    NothingToAsk(cur, data, order);
  }

  /** Without a conflicting key no prompt comes up. */
  lemma {:induction false} NothingToAsk(cur: Doc, data: Doc, order: seq<string>)
    requires cur.Keys !! data.Keys
    ensures Prompted(cur, data, order) == []
    decreases |order|
  {
    if |order| > 0 {
      NothingToAsk(cur, data, order[..|order| - 1]);
    }
  }

  /** The document after the prompts about `asked`, answered with `typed` in turn:
      each answer "2" puts the new value at its key. */
  function PartlyMerged(cur: Doc, data: Doc, asked: seq<string>, typed: seq<string>): (r: Doc)
    requires |asked| <= |typed|
    ensures r.Keys == cur.Keys
    decreases |asked|
  {
    if |asked| == 0 then cur
    else
      var n := |asked| - 1;
      var before := PartlyMerged(cur, data, asked[..n], typed);
      if typed[n] == "2" && asked[n] in cur && asked[n] in data then before[asked[n] := data[asked[n]]]
      else before
  }

  /** Each key of the partly merged document holds the new value exactly when it was
      asked about and answered "2". */
  lemma {:induction false} PartlyMergedAt(cur: Doc, data: Doc, asked: seq<string>, typed: seq<string>, k: string)
    requires |asked| <= |typed| && Distinct(asked) && k in cur
    ensures PartlyMerged(cur, data, asked, typed)[k] ==
      if k in asked && k in data && TypedAnswers(asked, typed)[k] == "2" then data[k] else cur[k]
    decreases |asked|
  {
    if |asked| > 0 {
      var n := |asked| - 1;
      PartlyMergedAt(cur, data, asked[..n], typed, k);
      assert asked == asked[..n] + [asked[n]];
      assert k in asked <==> k in asked[..n] || k == asked[n];
    }
  }

  /** One more key of the order: it is asked about exactly when it conflicts, and it
      was not asked about before. */
  lemma PromptedStep(cur: Doc, data: Doc, order: seq<string>, i: nat)
    requires i < |order| && Distinct(order)
    ensures order[i] !in Prompted(cur, data, order[..i])
    ensures Distinct(Prompted(cur, data, order[..i]))
    ensures Prompted(cur, data, order[..i + 1]) ==
      if Conflicting(cur, data, order[i]) then Prompted(cur, data, order[..i]) + [order[i]]
      else Prompted(cur, data, order[..i])
  {
    assert order[..i + 1][..i] == order[..i];
    DistinctAt(order, i);
  }

  /** The answer to one more prompt updates the partly merged document at that key. */
  lemma PartlyMergedStep(cur: Doc, data: Doc, asked: seq<string>, typed: seq<string>, key: string)
    requires |asked| < |typed| && key in cur && key in data
    ensures PartlyMerged(cur, data, asked + [key], typed) ==
      if typed[|asked|] == "2" then PartlyMerged(cur, data, asked, typed)[key := data[key]]
      else PartlyMerged(cur, data, asked, typed)
  {
    assert (asked + [key])[..|asked|] == asked;
  }

  /** A key not asked about yet still holds its old value. */
  lemma UnaskedKeepsOld(cur: Doc, data: Doc, asked: seq<string>, typed: seq<string>, key: string)
    requires |asked| <= |typed| && Distinct(asked) && key !in asked && key in cur
    ensures PartlyMerged(cur, data, asked, typed)[key] == cur[key]
  {
    PartlyMergedAt(cur, data, asked, typed, key);
  }

  /** Once every key of the order has been visited, the partly merged document is the
      merge with the typed replies. */
  lemma PartlyMergedIsMerged(cur: Doc, data: Doc, order: seq<string>, typed: seq<string>)
    requires VisitOrder(order, data) && cur.Keys * data.Keys != {}
    requires |Prompted(cur, data, order[..|order|])| <= |typed|
    ensures order[..|order|] == order
    ensures var keys := Prompted(cur, data, order);
      PartlyMerged(cur, data, keys, typed) == Merged(cur, data, ReplyOf(TypedAnswers(keys, typed)))
  {
    assert order[..|order|] == order;
    assert !(cur.Keys !! data.Keys) by {
      var k0 :| k0 in cur.Keys * data.Keys;
    }
    var keys := Prompted(cur, data, order);
    var reply := ReplyOf(TypedAnswers(keys, typed));
    var partly := PartlyMerged(cur, data, keys, typed);
    var merged := Merged(cur, data, reply);
    forall k | k in cur
      ensures partly[k] == merged[k]
    {
      PartlyMergedAt(cur, data, keys, typed, k);
      if Conflicting(cur, data, k) {
        assert k in keys;
        assert reply(k) == TypedAnswers(keys, typed)[k];
      }
    }
  }

  lemma DropOne(typed: seq<string>, n: nat)
    requires n < |typed|
    ensures typed[n..][1..] == typed[n + 1..]
  {
  }

  /** The state of the prompt loop of `append` after visiting the first `i` keys of
      `order`: the keys asked about so far, the typed lines they took, and the
      document with those answers applied. */
  ghost predicate Visited(cur: Doc, data: Doc, order: seq<string>, i: nat, typed: seq<string>,
                          asked: seq<string>, merged: Doc, input: seq<string>)
  {
    && VisitOrder(order, data) && i <= |order|
    && asked == Prompted(cur, data, order[..i])
    && |asked| <= |typed| && input == typed[|asked|..]
    && merged == PartlyMerged(cur, data, asked, typed)
  }

  /** A key that is asked about and answered: the answer is applied and the loop
      state moves past the key and the line. */
  lemma AnsweredStep(cur: Doc, data: Doc, order: seq<string>, i: nat, typed: seq<string>,
                     asked: seq<string>, merged: Doc, input: seq<string>)
    requires i < |order| && Visited(cur, data, order, i, typed, asked, merged, input)
    requires Conflicting(cur, data, order[i]) && |input| > 0
    ensures var key := order[i];
      Visited(cur, data, order, i + 1, typed, asked + [key],
              if input[0] == "2" then merged[key := data[key]] else merged, input[1..])
  {
    var key := order[i];
    PromptedStep(cur, data, order, i);
    PartlyMergedStep(cur, data, asked, typed, key);
    DropOne(typed, |asked|);
  }

  /** A key that is not asked about leaves the loop state as it was. */
  lemma SkippedStep(cur: Doc, data: Doc, order: seq<string>, i: nat, typed: seq<string>,
                    asked: seq<string>, merged: Doc, input: seq<string>)
    requires i < |order| && Visited(cur, data, order, i, typed, asked, merged, input)
    requires !Conflicting(cur, data, order[i])
    ensures Visited(cur, data, order, i + 1, typed, asked, merged, input)
  {
    PromptedStep(cur, data, order, i);
  }

  /** A conflicting key not yet reached is asked about after the keys asked so far. */
  lemma UnansweredStep(cur: Doc, data: Doc, order: seq<string>, i: nat, asked: seq<string>)
    requires i < |order| && Distinct(order) && asked == Prompted(cur, data, order[..i])
    requires Conflicting(cur, data, order[i])
    ensures |asked| < |Prompted(cur, data, order)|
  {
    PromptedStep(cur, data, order, i);
    assert |Prompted(cur, data, order[..i + 1])| == |asked| + 1;
    PromptedGrows(cur, data, order, i + 1);
  }

  /** One pass of the prompt loop of `append`: a key both documents hold with
      different values takes one typed line, and "2" puts the new value there; end of
      input at the prompt is reported as False. */
  method VisitKey(session: Session, cur: Doc, data: Doc, order: seq<string>, i: nat,
                  ghost typed: seq<string>, ghost asked: seq<string>, merged: Doc)
    returns (ok: bool, next: Doc, ghost nextAsked: seq<string>)
    requires i < |order| && Visited(cur, data, order, i, typed, asked, merged, session.input)
    modifies session
    ensures session.environ == old(session.environ)
    ensures ok ==> Visited(cur, data, order, i + 1, typed, nextAsked, next, session.input)
    ensures !ok ==> session.input == [] && |typed| < |Prompted(cur, data, order)|
  {
    var key := order[i];
    if key in cur {
      PromptedStep(cur, data, order, i);
      UnaskedKeepsOld(cur, data, asked, typed, key);
    }
    assert key in cur && key in data && merged[key] != data[key] <==> Conflicting(cur, data, key);
    if key in cur && key in data && merged[key] != data[key] {
      ghost var before := session.input;
      var choice := session.ReadLine();
      if choice.None? {
        UnansweredStep(cur, data, order, i, asked);
        assert |typed[|asked|..]| == 0;
        return false, merged, asked;
      }
      AnsweredStep(cur, data, order, i, typed, asked, merged, before);
      next := if choice.value == "2" then merged[key := data[key]] else merged;
      nextAsked := asked + [key];
    } else {
      SkippedStep(cur, data, order, i, typed, asked, merged, session.input);
      next, nextAsked := merged, asked;
    }
    ok := true;
  }

  /** The prompt loop of `append` when some key is shared: every key of `order` that
      both documents hold with different values takes one typed line, and "2" takes
      the new value. End of input at a prompt is reported as False. */
  method ResolveConflicts(session: Session, cur: Doc, data: Doc, order: seq<string>) returns (ok: bool, merged: Doc)
    requires VisitOrder(order, data)
    requires cur.Keys * data.Keys != {}
    modifies session
    ensures session.environ == old(session.environ)
    ensures var keys := Prompted(cur, data, order);
      if |old(session.input)| < |keys| then (!ok && session.input == [])
      else (ok && session.input == old(session.input)[|keys|..]
            && merged == Merged(cur, data, ReplyOf(TypedAnswers(keys, old(session.input)))))
  {
    merged := cur;
    ghost var typed := session.input;
    ghost var asked: seq<string> := [];
    assert merged == PartlyMerged(cur, data, asked, typed);
    for i := 0 to |order|
      invariant Visited(cur, data, order, i, typed, asked, merged, session.input)
      invariant session.environ == old(session.environ)
    {
      ok, merged, asked := VisitKey(session, cur, data, order, i, typed, asked, merged);
      if !ok {
        return;
      }
    }
    PartlyMergedIsMerged(cur, data, order, typed);
    ok := true;
  }

  // ----- removing by dotted path -----

  /** `remove` on a split path: the document without the last key of the path, the
      mappings above it rebuilt around the change; None when the path does not lead
      through mappings to an existing key. */
  function RemovePath(d: Doc, p: seq<string>): Option<Doc>
    requires |p| >= 1
    decreases |p|
  {
    if |p| == 1 then
      if p[0] in d then Some(d - {p[0]}) else None
    else if p[0] in d && d[p[0]].Node? then
      match RemovePath(d[p[0]].fields, p[1..])
      case Some(m) => Some(d[p[0] := Node(m)])
      case None => None
    else None
  }

  /** Removal succeeds exactly when the mappings on the path exist and the last one
      holds the final key: the condition the walk in `remove` tests. */
  lemma {:induction false} RemovePathIffDescend(d: Doc, p: seq<string>)
    requires |p| >= 1
    ensures RemovePath(d, p).Some? <==>
      (Descend(d, p[..|p| - 1]).Some? && p[|p| - 1] in Descend(d, p[..|p| - 1]).value)
    decreases |p|
  {
    if |p| == 1 {
      assert p[..0] == [];
    } else {
      var init := p[..|p| - 1];
      assert init[0] == p[0];
      assert init[1..] == p[1..][..|p| - 2];
      assert p[1..][|p| - 2] == p[|p| - 1];
      if p[0] in d && d[p[0]].Node? {
        RemovePathIffDescend(d[p[0]].fields, p[1..]);
      }
    }
  }

  /** Removal succeeds exactly when the path names a value. */
  lemma {:induction false} RemoveSucceedsIffPresent(d: Doc, p: seq<string>)
    requires |p| >= 1
    ensures RemovePath(d, p).Some? <==> LookupPath(d, p).Some?
    decreases |p|
  {
    if |p| > 1 && p[0] in d && d[p[0]].Node? {
      RemoveSucceedsIffPresent(d[p[0]].fields, p[1..]);
    }
  }

  /** After a removal the removed path names nothing. */
  lemma {:induction false} RemovedPathIsAbsent(d: Doc, p: seq<string>)
    requires |p| >= 1 && RemovePath(d, p).Some?
    ensures LookupPath(RemovePath(d, p).value, p) == None
    decreases |p|
  {
    if |p| > 1 {
      RemovedPathIsAbsent(d[p[0]].fields, p[1..]);
    }
  }

  /** A removal changes no value at a path that neither lies under the removed one nor
      leads to it. */
  lemma {:induction false} RemoveKeepsOtherPaths(d: Doc, p: seq<string>, q: seq<string>)
    requires |p| >= 1 && RemovePath(d, p).Some?
    requires !IsPrefix(p, q) && !IsPrefix(q, p)
    ensures LookupPath(RemovePath(d, p).value, q) == LookupPath(d, q)
    decreases |p|
  {
    var after := RemovePath(d, p).value;
    if |q| >= 1 && q[0] != p[0] {
      assert q[0] in after <==> q[0] in d;
      if q[0] in d {
        assert after[q[0]] == d[q[0]];
      }
    } else if |q| >= 2 && |p| >= 2 {
      RemoveKeepsOtherPaths(d[p[0]].fields, p[1..], q[1..]);
    }
  }

  // ----- appending to a list at a dotted path -----

  /** The items already in the list at `p`, if a list is there. */
  function ListAt(d: Doc, p: seq<string>): seq<Value> {
    match LookupPath(d, p)
    case Some(List(xs)) => xs
    case _ => []
  }

  /** Append `items` to the list at `p`, creating the list and any missing mapping on
      the way; None when something other than a mapping lies on the path, or something
      other than a list at its end. */
  function AppendAt(d: Doc, p: seq<string>, items: seq<Value>): Option<Doc>
    requires |p| >= 1
    decreases |p|
  {
    var k := p[0];
    if |p| == 1 then
      if k !in d then Some(d[k := List(items)])
      else if d[k].List? then Some(d[k := List(d[k].items + items)])
      else None
    else
      var sub := if k in d then d[k] else Node(map[]);
      if !sub.Node? then None
      else match AppendAt(sub.fields, p[1..], items)
        case Some(m) => Some(d[k := Node(m)])
        case None => None
  }

  /** After appending, the path holds the old items followed by the new ones. */
  lemma {:induction false} AppendAtExtends(d: Doc, p: seq<string>, items: seq<Value>)
    requires |p| >= 1 && AppendAt(d, p, items).Some?
    ensures LookupPath(AppendAt(d, p, items).value, p) == Some(List(ListAt(d, p) + items))
    decreases |p|
  {
    if |p| == 1 {
      assert ListAt(d, p) + items == if p[0] in d then d[p[0]].items + items else items;
    } else {
      var k := p[0];
      var sub := if k in d then d[k] else Node(map[]);
      AppendAtExtends(sub.fields, p[1..], items);
      assert ListAt(d, p) == ListAt(sub.fields, p[1..]);
    }
  }

  /** Appending changes no value at a path that neither lies under the list nor leads to it. */
  lemma {:induction false} AppendAtKeepsOtherPaths(d: Doc, p: seq<string>, items: seq<Value>, q: seq<string>)
    requires |p| >= 1 && AppendAt(d, p, items).Some?
    requires !IsPrefix(p, q) && !IsPrefix(q, p)
    ensures LookupPath(AppendAt(d, p, items).value, q) == LookupPath(d, q)
    decreases |p|
  {
    var after := AppendAt(d, p, items).value;
    if |q| >= 1 && q[0] != p[0] {
      assert q[0] in after <==> q[0] in d;
      if q[0] in d {
        assert after[q[0]] == d[q[0]];
      }
    } else if |q| >= 2 && |p| >= 2 {
      var sub := if p[0] in d then d[p[0]] else Node(map[]);
      AppendAtKeepsOtherPaths(sub.fields, p[1..], items, q[1..]);
      if p[0] !in d {
        assert LookupPath(map[], q[1..]) == None;
      }
    }
  }

  // ----- list_to_dot_notation -----

  /** `list_to_dot_notation`: the segments joined with '.'. */
  function ListToDotNotation(parts: seq<string>): string
    decreases |parts|
  {
    if |parts| == 0 then ""
    else if |parts| == 1 then parts[0]
    else parts[0] + "." + ListToDotNotation(parts[1..])
  }

  /** Splitting a dotted name by '.' recovers the segments it was joined from, as long
      as no segment holds a dot itself. */
  lemma {:induction false} SplitJoined(parts: seq<string>)
    requires |parts| >= 1
    requires forall i :: 0 <= i < |parts| ==> DotFree(parts[i])
    ensures SplitDots(ListToDotNotation(parts)) == parts
    decreases |parts|
  {
    if |parts| == 1 {
      SplitDotFree(parts[0]);
    } else {
      var tail := ListToDotNotation(parts[1..]);
      SplitJoined(parts[1..]);
      assert ListToDotNotation(parts) == parts[0] + ("." + tail);
      SplitDotFreePrefix(parts[0], "." + tail);
      assert ("." + tail)[1..] == tail;
      assert parts[0] + "" == parts[0];
      assert parts == [parts[0]] + parts[1..];
    }
  }

  /** Joining the pieces of a split gives the string back, whatever it holds. */
  lemma {:induction false} JoinSplit(s: string)
    ensures ListToDotNotation(SplitDots(s)) == s
    decreases |s|
  {
    if |s| > 0 {
      var rest := SplitDots(s[1..]);
      JoinSplit(s[1..]);
      if s[0] == '.' {
        assert ([""] + rest)[1..] == rest;
        assert s == "." + s[1..];
      } else {
        var parts := [[s[0]] + rest[0]] + rest[1..];
        if |rest| == 1 {
          assert parts == [[s[0]] + rest[0]];
        } else {
          assert parts[1..] == rest[1..];
          assert rest == [rest[0]] + rest[1..];
        }
        assert s == [s[0]] + s[1..];
      }
    }
  }

  // ----- the parser object -----

  /** A `YAMLParser` bound to one descriptor file. `file` is the file's content:
      None while the file does not exist, Some(map[]) for an empty file. */
  class YamlParser {
    var file: Option<Doc>

    constructor (contents: Option<Doc>)
      ensures file == contents
    {
      file := contents;
    }

    /** `read`. */
    function Read(): Option<Doc>
      reads this
    {
      ReadDoc(file)
    }

    /** `get`. */
    function Get(key: string): Option<Value>
      reads this
    {
      GetIn(file, key)
    }

    /** `append`: a non-mapping argument is refused without writing. Otherwise each
        shared key whose values differ is asked about, in `order`, with one typed line
        ("2" takes the new value); end of input there raises EOFError, which the
        handler turns into False without writing. With no shared key the new keys are
        added. */
    method Append(session: Session, data: Value, order: seq<string>) returns (ok: bool)
      requires data.Node? ==> VisitOrder(order, data.fields)
      modifies this, session
      ensures session.environ == old(session.environ)
      ensures Appended(ok, file, session.input) == AppendSpec(old(file), data, order, old(session.input))
    {
      if !data.Node? {
        return false;
      }
      var incoming := data.fields;
      var current := Loaded(file);
      var overlapping := current.Keys * incoming.Keys;
      if overlapping != {} {
        var merged;
        ok, merged := ResolveConflicts(session, current, incoming, order);
        if !ok {
          return false;
        }
        file := Some(merged);
      } else {
        NothingAskedWhenDisjoint(current, incoming, order, session.input);
        file := Some(current + incoming);
        ok := true;
      }
    }

    /** `remove`: walk the dotted path through nested mappings and delete its last key.
        Fails, leaving the file as it was, when the document reads as None or the walk
        or the final key is missing. */
    method Remove(key: string) returns (ok: bool)
      modifies this
      ensures ok == (ReadDoc(old(file)).Some? && RemovePath(ReadDoc(old(file)).value, SplitDots(key)).Some?)
      ensures file == if ok then Some(RemovePath(ReadDoc(old(file)).value, SplitDots(key)).value) else old(file)
    {
      var read := ReadDoc(file);
      if read.None? {
        return false;
      }
      var data := read.value;
      var parts := SplitDots(key);
      var n := |parts|;
      RemovePathIffDescend(data, parts);
      var current := data;
      var i := 0;
      while i < n - 1
        invariant 0 <= i <= n - 1
        invariant Descend(data, parts[..i]) == Some(current)
        invariant file == old(file)
      {
        var part := parts[i];
        DescendSnoc(data, parts[..i], part);
        assert parts[..i + 1] == parts[..i] + [part];
        if part !in current || !current[part].Node? {
          DescendConcat(data, parts[..i + 1], parts[i + 1..n - 1]);
          assert parts[..n - 1] == parts[..i + 1] + parts[i + 1..n - 1];
          assert Descend(data, parts[..n - 1]).None?;
          return false;
        }
        current := current[part].fields;
        i := i + 1;
      }
      if parts[n - 1] !in current {
        return false;
      }
      file := Some(RemovePath(data, parts).value);
      ok := true;
    }

    /** `append_nested`: append `items` to the list at a dotted path, creating what is
        missing; fails without writing when the path is blocked by a non-mapping or ends
        at something other than a list. */
    method AppendNested(path: string, items: seq<Value>) returns (ok: bool)
      modifies this
      ensures ok == AppendAt(Loaded(old(file)), SplitDots(path), items).Some?
      ensures file == if ok then Some(AppendAt(Loaded(old(file)), SplitDots(path), items).value) else old(file)
    {
      var result := AppendAt(Loaded(file), SplitDots(path), items);
      if result.None? {
        return false;
      }
      file := Some(result.value);
      ok := true;
    }
  }
}
