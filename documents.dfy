/** The project descriptor as the tool sees it after `yaml.safe_load`: a mapping from
    string keys to values, where a value is a scalar, a nested mapping or a list. */
module Documents {
  import opened Wrappers

  /** One YAML value. Strings and integers are the scalars the tool writes
      (`linode_id` is an integer, everything else a string). */
  datatype Value =
    | Leaf(text: string)
    | Num(n: int)
    | Node(fields: map<string, Value>)
    | List(items: seq<Value>)

  /** A whole document: the top-level mapping. */
  type Doc = map<string, Value>

  /** The value at a path of keys, following nested mappings; None when a key is
      missing or a non-mapping is indexed into. The empty path names no value. */
  function LookupPath(d: Doc, p: seq<string>): Option<Value>
    decreases |p|
  {
    if |p| == 0 || p[0] !in d then None
    else if |p| == 1 then Some(d[p[0]])
    else match d[p[0]]
      case Node(m) => LookupPath(m, p[1..])
      case _ => None
  }

  /** The mapping reached by following every key of `p` through nested mappings. */
  function Descend(d: Doc, p: seq<string>): Option<Doc>
    decreases |p|
  {
    if |p| == 0 then Some(d)
    else if p[0] in d && d[p[0]].Node? then Descend(d[p[0]].fields, p[1..])
    else None
  }

  /** Descending along `p + q` is descending along `p`, then along `q`. */
  lemma {:induction false} DescendConcat(d: Doc, p: seq<string>, q: seq<string>)
    ensures Descend(d, p + q) ==
      match Descend(d, p)
      case Some(c) => Descend(c, q)
      case None => None
    decreases |p|
  {
    if |p| == 0 {
      assert p + q == q;
    } else {
      assert (p + q)[0] == p[0];
      assert (p + q)[1..] == p[1..] + q;
      if p[0] in d && d[p[0]].Node? {
        DescendConcat(d[p[0]].fields, p[1..], q);
      }
    }
  }

  /** Descending one key further extends a descent by one step. */
  lemma DescendSnoc(d: Doc, p: seq<string>, k: string)
    ensures Descend(d, p + [k]) ==
      match Descend(d, p)
      case Some(c) => if k in c && c[k].Node? then Some(c[k].fields) else None
      case None => None
  {
    DescendConcat(d, p, [k]);
    assert [k][1..] == [];
  }

  /** `a` is a prefix of `b`. */
  predicate IsPrefix(a: seq<string>, b: seq<string>) {
    |a| <= |b| && b[..|a|] == a
  }
}
