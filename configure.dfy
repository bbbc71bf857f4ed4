/** configure.py's model of an Ansible inventory: a host line
    `name key=value ...` read into a Vagrant or SSH connection record and
    written back, and a hosts file searched and edited one line at a time. */
module Configure {
  import opened Base
  import opened PyDict
  import opened PyStr

  /** Which of the two connection classes a record belongs to. */
  datatype Kind = Vagrant | Ssh

  /** The declared fields of `VagrantConnection` and `SSHConnection`, in the
      order their constructors list them (`unprocessed_options` aside). */
  function Fields(kind: Kind): (fs: seq<string>)
    ensures |fs| > 0 && "ansible_remote_user" in fs
    ensures forall i, j :: 0 <= i < j < |fs| ==> fs[i] != fs[j]
    ensures "ansible_connection" !in fs && "unprocessed_options" !in fs
  {
    match kind
    case Vagrant => ["ansible_vagrantfile", "ansible_remote_user"]
    case Ssh => ["ansible_host", "ansible_port", "ansible_remote_user", "ansible_ssh_private_key_file"]
  }

  /** Lower-case letters and underscores. */
  predicate Identifier(s: string)
  {
    forall i :: 0 <= i < |s| ==> 'a' <= s[i] <= 'z' || s[i] == '_'
  }

  lemma IdentifierPlain(s: string)
    requires Identifier(s)
    ensures NoSpace(s) && '=' !in s
  {
  }

  /** Field names can be written as `k=v` and read back. */
  lemma FieldNames(kind: Kind)
    ensures forall i :: 0 <= i < |Fields(kind)| ==> NoSpace(Fields(kind)[i]) && '=' !in Fields(kind)[i]
  {
    var fs := Fields(kind);
    forall i | 0 <= i < |fs| ensures NoSpace(fs[i]) && '=' !in fs[i] {
      assert Identifier(fs[i]);
      IdentifierPlain(fs[i]);
    }
  }

  /** `klass.__init__.__annotations__`: the fields, then `unprocessed_options`. */
  function Annotations(kind: Kind): (ns: seq<string>)
    ensures forall i, j :: 0 <= i < j < |ns| ==> ns[i] != ns[j]
  {
    Fields(kind) + ["unprocessed_options"]
  }

  /** A connection record: the value of each declared field in the order of
      `Fields(kind)` (`None` or a string), and the options the class does not
      declare. */
  datatype Connection = Connection(kind: Kind, values: seq<Option<string>>, unprocessed: Dict<string>)

  /** One value per declared field, and the leftover options as a dict. */
  predicate Valid(c: Connection)
  {
    |c.values| == |Fields(c.kind)| && UniqueKeys(c.unprocessed)
  }

  /** A `HostConfiguration`. */
  datatype Host = Host(name: string, conn: Connection)

  /** The exceptions that escape from these operations. */
  datatype Raised =
    | KeyError(key: string)           // `del` of a missing key
    | AssertionFailed                 // a failed `assert`
    | DuplicateKeyword(name: string)  // a keyword argument given twice

  // ---------------------------------------------------------------------------
  // opts_str_to_opts

  /** The key of a `key=value` token: what precedes its first `=`. */
  function KeyOf(token: string): string
  {
    Partition(token, '=').0
  }

  /** The value of a token: what follows its first `=`, empty without one. */
  function ValueOf(token: string): string
  {
    Partition(token, '=').1
  }

  /** The dict `opts_str_to_opts` fills from the tokens in order, a later key
      overwriting an earlier one in place. */
  function OptionsOf(tokens: seq<string>): (d: Dict<string>)
    ensures UniqueKeys(d)
  {
    if |tokens| == 0 then []
    else
      var n := |tokens| - 1;
      var d := OptionsOf(tokens[..n]);
      InsertUnique(d, KeyOf(tokens[n]), ValueOf(tokens[n]));
      Insert(d, KeyOf(tokens[n]), ValueOf(tokens[n]))
  }

  /** A key holds the value of the last token that carries it. */
  lemma {:induction false} OptionsLast(tokens: seq<string>, i: nat)
    requires i < |tokens|
    requires forall j :: i < j < |tokens| ==> KeyOf(tokens[j]) != KeyOf(tokens[i])
    ensures Get(OptionsOf(tokens), KeyOf(tokens[i])) == Some(ValueOf(tokens[i]))
  {
    var n := |tokens| - 1;
    InsertGet(OptionsOf(tokens[..n]), KeyOf(tokens[n]), ValueOf(tokens[n]), KeyOf(tokens[i]));
    if i < n {
      OptionsLast(tokens[..n], i);
    }
  }

  lemma OptionsStep(tokens: seq<string>, i: nat)
    requires i < |tokens|
    ensures OptionsOf(tokens[..i + 1]) == Insert(OptionsOf(tokens[..i]), KeyOf(tokens[i]), ValueOf(tokens[i]))
  {
    assert tokens[..i + 1][..i] == tokens[..i];
    assert tokens[..i + 1][i] == tokens[i];
  }

  /** `opts_str_to_opts(line)`. */
  method OptsStrToOpts(line: string) returns (opts: Dict<string>)
    ensures opts == OptionsOf(Tokens(line))
  {
    var tokens := Tokens(line);
    opts := [];
    var i := 0;
    while i < |tokens|
      invariant 0 <= i <= |tokens|
      invariant opts == OptionsOf(tokens[..i])
    {
      var (k, v) := Partition(tokens[i], '=');
      OptionsStep(tokens, i);
      opts := Insert(opts, k, v);
      i := i + 1;
    }
    assert tokens[..i] == tokens;
  }

  /** `f"{k}={v}"`. */
  function Item(entry: (string, string)): string
  {
    entry.0 + "=" + entry.1
  }

  function Items(d: Dict<string>): (ts: seq<string>)
    ensures |ts| == |d|
    ensures forall i :: 0 <= i < |d| ==> ts[i] == Item(d[i])
  {
    seq(|d|, i requires 0 <= i < |d| => Item(d[i]))
  }

  /** A dict that survives being written as `k=v` tokens and read back: unique
      keys, no `=` in a key, no whitespace anywhere. */
  predicate Plain(d: Dict<string>)
  {
    UniqueKeys(d) && forall i :: 0 <= i < |d| ==> '=' !in d[i].0 && NoSpace(d[i].0) && NoSpace(d[i].1)
  }

  /** A written item reads back as its key and value. */
  lemma ItemParts(e: (string, string))
    requires '=' !in e.0
    ensures KeyOf(Item(e)) == e.0 && ValueOf(Item(e)) == e.1
  {
    assert Item(e) == e.0 + ['='] + e.1;
    PartitionAt(e.0, '=', e.1);
  }

  /** A prefix of a plain dict is plain, and the next key is new to it. */
  lemma PlainPrefix(d: Dict<string>, n: nat)
    requires Plain(d) && n < |d|
    ensures Plain(d[..n]) && d[n].0 !in KeySet(d[..n])
  {
    assert UniqueKeys(d[..n]);
    KeySetMember(d[..n], d[n].0);
  }

  /** Reading written items back gives the dict again, order included. */
  lemma {:induction false} OptionsOfItems(d: Dict<string>)
    requires Plain(d)
    ensures OptionsOf(Items(d)) == d
  {
    if |d| > 0 {
      var n := |d| - 1;
      var ts := Items(d);
      PlainPrefix(d, n);
      OptionsOfItems(d[..n]);
      assert ts[..n] == Items(d[..n]);
      ItemParts(d[n]);
      InsertLast(d);
    }
  }

  /** Written items are words without whitespace. */
  lemma ItemWords(d: Dict<string>)
    requires Plain(d)
    ensures forall i :: 0 <= i < |Items(d)| ==> |Items(d)[i]| > 0 && NoSpace(Items(d)[i])
  {
    forall i | 0 <= i < |d| ensures NoSpace(Item(d[i])) {
      var s := Item(d[i]);
      forall m | 0 <= m < |s| ensures !IsSpace(s[m]) {
        if m > |d[i].0| {
          assert s[m] == d[i].1[m - |d[i].0| - 1];
        }
      }
    }
  }

  /** The options text `k=v k=v ...` splits and reads back into its dict. */
  lemma ReadText(d: Dict<string>)
    requires Plain(d)
    ensures OptionsOf(Tokens(Join(Items(d), " "))) == d
  {
    ItemWords(d);
    TokensJoin(Items(d));
    OptionsOfItems(d);
  }

  // ---------------------------------------------------------------------------
  // Optioneer.from_options

  /** What `from_options` builds: each declared field takes the option of its
      name or `None`, and every other option stays behind, in order, as
      `unprocessed_options`. An `unprocessed_options` key in the input reaches
      the constructor as a second value for that keyword. */
  function ConnectionOf(kind: Kind, opts: Dict<string>): (r: Result<Connection, Raised>)
    requires UniqueKeys(opts)
    ensures r.Err? <==> "unprocessed_options" in KeySet(opts)
    ensures r.Err? ==> r.error == DuplicateKeyword("unprocessed_options")
    ensures r.Ok? ==> Valid(r.value) && r.value.kind == kind
    ensures r.Ok? ==> forall j :: 0 <= j < |Fields(kind)| ==> r.value.values[j] == Get(opts, Fields(kind)[j])
    ensures r.Ok? ==> forall k :: Get(r.value.unprocessed, k) == if k in Fields(kind) then None else Get(opts, k)
  {
    if "unprocessed_options" in KeySet(opts) then Err(DuplicateKeyword("unprocessed_options"))
    else
      var fs := Fields(kind);
      WithoutUnique(opts, fs);
      WithoutGets(opts, fs);
      Ok(Connection(kind, seq(|fs|, j requires 0 <= j < |fs| => Get(opts, fs[j])), Without(opts, fs)))
  }

  /** `processed_options` after the loop of `from_options` over `names`: a
      name present in the options takes its value, an absent one `None`,
      except `unprocessed_options`. */
  function Processed(opts: Dict<string>, names: seq<string>): Dict<Option<string>>
  {
    if |names| == 0 then []
    else
      var n := |names| - 1;
      var p := Processed(opts, names[..n]);
      var k := names[n];
      if k in KeySet(opts) then Insert(p, k, Get(opts, k))
      else if k != "unprocessed_options" then Insert(p, k, None)
      else p
  }

  lemma {:induction false} ProcessedGet(opts: Dict<string>, names: seq<string>, k: string)
    ensures Get(Processed(opts, names), k)
      == if k in names && (k != "unprocessed_options" || k in KeySet(opts)) then Some(Get(opts, k)) else None
  {
    if |names| > 0 {
      var n := |names| - 1;
      var p := Processed(opts, names[..n]);
      ProcessedGet(opts, names[..n], k);
      assert names == names[..n] + [names[n]];
      if names[n] in KeySet(opts) {
        InsertGet(p, names[n], Get(opts, names[n]), k);
      } else if names[n] != "unprocessed_options" {
        InsertGet(p, names[n], None, k);
      }
    }
  }

  /** A keyword argument: the value passed, or `None` when it was not passed. */
  function Kwarg(processed: Dict<Option<string>>, k: string): Option<string>
  {
    match Get(processed, k)
    case Some(v) => v
    case None => None
  }

  /** One round of the loop of `from_options`: take `k` out of what is left. */
  lemma FromOptionsStep(opts: Dict<string>, names: seq<string>, i: nat)
    requires UniqueKeys(opts) && i < |names|
    requires DistinctNames(names)
    ensures Get(Without(opts, names[..i]), names[i]) == Get(opts, names[i])
    ensures Remove(Without(opts, names[..i]), names[i]) == Without(opts, names[..i + 1])
    ensures Processed(opts, names[..i + 1]) == var p := Processed(opts, names[..i]);
      if names[i] in KeySet(opts) then Insert(p, names[i], Get(opts, names[i]))
      else if names[i] != "unprocessed_options" then Insert(p, names[i], None)
      else p
  {
    assert names[..i + 1] == names[..i] + [names[i]];
    assert names[..i + 1][..i] == names[..i];
    assert names[i] !in names[..i];
    WithoutGet(opts, names[..i], names[i]);
    RemoveWithout(opts, names[..i], names[i]);
  }

  /** `klass.from_options(opts)`. The loop deletes every annotated key from
      the caller's dict; `rest` is that dict afterwards, and on success it is
      the record's `unprocessed_options` itself. */
  method FromOptions(kind: Kind, opts: Dict<string>) returns (r: Result<Connection, Raised>, rest: Dict<string>)
    requires UniqueKeys(opts)
    ensures r == ConnectionOf(kind, opts)
    ensures rest == Without(opts, Annotations(kind))
    ensures r.Ok? ==> r.value.unprocessed == rest
  {
    var names := Annotations(kind);
    var processed: Dict<Option<string>> := [];
    rest := opts;
    WithoutNone(opts, []);
    var i := 0;
    while i < |names|
      invariant 0 <= i <= |names|
      invariant rest == Without(opts, names[..i])
      invariant processed == Processed(opts, names[..i])
    {
      var k := names[i];
      FromOptionsStep(opts, names, i);
      if k in KeySet(rest) {
        processed := Insert(processed, k, Get(rest, k));
        rest := Remove(rest, k);
      } else if k != "unprocessed_options" {
        processed := Insert(processed, k, None);
      }
      i := i + 1;
    }
    assert names[..i] == names;
    ProcessedConnection(kind, opts);
    if Get(processed, "unprocessed_options").Some? {
      r := Err(DuplicateKeyword("unprocessed_options"));
      return;
    }
    var fs := Fields(kind);
    r := Ok(Connection(kind, seq(|fs|, j requires 0 <= j < |fs| => Kwarg(processed, fs[j])), rest));
  }

  /** The constructor call after the loop of `from_options` builds what
      `ConnectionOf` describes. */
  lemma ProcessedConnection(kind: Kind, opts: Dict<string>)
    requires UniqueKeys(opts)
    ensures var p := Processed(opts, Annotations(kind));
      var fs := Fields(kind);
      ConnectionOf(kind, opts)
      == if Get(p, "unprocessed_options").Some? then Err(DuplicateKeyword("unprocessed_options"))
         else Ok(Connection(kind, seq(|fs|, j requires 0 <= j < |fs| => Kwarg(p, fs[j])), Without(opts, Annotations(kind))))
  {
    var names := Annotations(kind);
    var p := Processed(opts, names);
    var fs := Fields(kind);
    assert names == fs + ["unprocessed_options"];
    assert names[|fs|] == "unprocessed_options";
    ProcessedGet(opts, names, "unprocessed_options");
    if Get(p, "unprocessed_options").None? {
      WithoutAbsent(opts, fs, "unprocessed_options");
      var values := seq(|fs|, j requires 0 <= j < |fs| => Kwarg(p, fs[j]));
      forall j | 0 <= j < |fs| ensures values[j] == Get(opts, fs[j]) {
        assert names[j] == fs[j];
        ProcessedGet(opts, names, fs[j]);
      }
      assert values == seq(|fs|, j requires 0 <= j < |fs| => Get(opts, fs[j]));
    }
  }

  // ---------------------------------------------------------------------------
  // Optioneer.to_options

  /** The values `if not v: continue` keeps: a non-empty string. */
  predicate Truthy(v: Option<string>)
  {
    v.Some? && v.value != ""
  }

  /** The first loop of `to_options`: the truthy declared fields, in
      declaration order, each field at most once. */
  function Declared(names: seq<string>, values: seq<Option<string>>): (r: Dict<string>)
    requires |names| == |values|
    ensures |r| <= |names|
    ensures UniqueKeys(r) && KeysAmong(r, names)
  {
    if |names| == 0 then []
    else
      var n := |names| - 1;
      var d := Declared(names[..n], values[..n]);
      KeysAmongPrefix(d, names, n);
      if Truthy(values[n]) then
        InsertUnique(d, names[n], values[n].value);
        InsertKeysIn(d, names[n], values[n].value, names);
        Insert(d, names[n], values[n].value)
      else d
  }

  /** One more field of the first loop: its entry is added when truthy. */
  lemma DeclaredStep(names: seq<string>, values: seq<Option<string>>, i: nat)
    requires |names| == |values| && i < |names|
    ensures Declared(names[..i + 1], values[..i + 1])
      == if Truthy(values[i]) then Insert(Declared(names[..i], values[..i]), names[i], values[i].value)
         else Declared(names[..i], values[..i])
  {
    assert names[..i + 1][..i] == names[..i];
    assert values[..i + 1][..i] == values[..i];
  }

  /** No field name occurs twice. */
  predicate DistinctNames(names: seq<string>)
  {
    forall a, b :: 0 <= a < b < |names| ==> names[a] != names[b]
  }

  /** Every key of `d` is one of `names`. */
  predicate KeysAmong(d: Dict<string>, names: seq<string>)
  {
    forall i :: 0 <= i < |d| ==> d[i].0 in names
  }

  /** Keys among the first `n` names are among all of them. */
  lemma KeysAmongPrefix(d: Dict<string>, names: seq<string>, n: nat)
    requires n <= |names| && KeysAmong(d, names[..n])
    ensures KeysAmong(d, names)
  {
    forall i | 0 <= i < |d| ensures d[i].0 in names {
      var j :| 0 <= j < n && names[..n][j] == d[i].0;
      assert names[j] == d[i].0;
    }
  }

  /** Inserting a key from `names` into a dict keyed from `names` keeps it so. */
  lemma InsertKeysIn(d: Dict<string>, k: string, v: string, names: seq<string>)
    requires KeysAmong(d, names) && k in names
    ensures KeysAmong(Insert(d, k, v), names)
  {
    var r := Insert(d, k, v);
    forall i | 0 <= i < |r| ensures r[i].0 in names {
      assert r[i].0 in KeySet(r);
      if r[i].0 != k {
        assert r[i].0 in KeySet(d);
        KeySetMember(d, r[i].0);
      }
    }
  }

  /** A truthy field maps to its value; any other field is absent. */
  lemma DeclaredAt(names: seq<string>, values: seq<Option<string>>, i: nat)
    requires |names| == |values| && i < |names|
    requires DistinctNames(names)
    ensures Get(Declared(names, values), names[i]) == if Truthy(values[i]) then Some(values[i].value) else None
  {
    assert OnlyAt(names, i);
    DeclaredOnlyAt(names, values, i);
  }

  /** `names[i]` occurs in `names` at `i` alone. */
  predicate OnlyAt(names: seq<string>, i: nat)
  {
    i < |names| && forall j :: 0 <= j < |names| && j != i ==> names[j] != names[i]
  }

  lemma OnlyAtPrefix(names: seq<string>, i: nat, n: nat)
    requires OnlyAt(names, i) && i < n < |names|
    ensures OnlyAt(names[..n], i) && names[i] != names[n]
  {
    assert forall j :: 0 <= j < n ==> names[..n][j] == names[j];
  }

  /** `DeclaredAt` for one field whose name no other field bears. */
  lemma {:induction false} DeclaredOnlyAt(names: seq<string>, values: seq<Option<string>>, i: nat)
    requires |names| == |values| && i < |names|
    requires OnlyAt(names, i)
    ensures Get(Declared(names, values), names[i]) == if Truthy(values[i]) then Some(values[i].value) else None
  {
    var n := |names| - 1;
    if i < n {
      OnlyAtPrefix(names, i, n);
      DeclaredOnlyAt(names[..n], values[..n], i);
      DeclaredBefore(names, values, i);
    } else {
      DeclaredLast(names, values);
    }
  }

  /** An earlier field keeps its entry when the last field is added. */
  lemma DeclaredBefore(names: seq<string>, values: seq<Option<string>>, i: nat)
    requires |names| == |values| && i < |names| - 1 && names[i] != names[|names| - 1]
    requires var n := |names| - 1;
      Get(Declared(names[..n], values[..n]), names[..n][i])
        == if Truthy(values[..n][i]) then Some(values[..n][i].value) else None
    ensures Get(Declared(names, values), names[i]) == if Truthy(values[i]) then Some(values[i].value) else None
  {
    var n := |names| - 1;
    assert names[..n][i] == names[i] && values[..n][i] == values[i];
    DeclaredOther(names, values, names[i]);
  }

  /** The last field does not disturb the other keys. */
  lemma DeclaredOther(names: seq<string>, values: seq<Option<string>>, k: string)
    requires |names| == |values| && |names| > 0 && k != names[|names| - 1]
    ensures var n := |names| - 1;
      Get(Declared(names, values), k) == Get(Declared(names[..n], values[..n]), k)
  {
    var n := |names| - 1;
    if Truthy(values[n]) {
      InsertGet(Declared(names[..n], values[..n]), names[n], values[n].value, k);
    }
  }

  /** `DeclaredAt` for the last field, which the earlier ones do not name. */
  lemma DeclaredLast(names: seq<string>, values: seq<Option<string>>)
    requires |names| == |values| && |names| > 0
    requires OnlyAt(names, |names| - 1)
    ensures var n := |names| - 1;
      Get(Declared(names, values), names[n]) == if Truthy(values[n]) then Some(values[n].value) else None
  {
    var n := |names| - 1;
    var d := Declared(names[..n], values[..n]);
    if Truthy(values[n]) {
      InsertGet(d, names[n], values[n].value, names[n]);
    } else {
      forall m | 0 <= m < |d| ensures d[m].0 != names[n] {
        assert d[m].0 in names[..n];
      }
      KeySetMember(d, names[n]);
    }
  }

  /** With no truthy value there is no declared option. */
  lemma {:induction false} DeclaredNone(names: seq<string>, values: seq<Option<string>>)
    requires |names| == |values|
    requires forall j :: 0 <= j < |values| ==> !Truthy(values[j])
    ensures Declared(names, values) == []
  {
    if |names| > 0 {
      var n := |names| - 1;
      DeclaredNone(names[..n], values[..n]);
    }
  }

  /** The second loop of `to_options`: the non-empty leftover options added
      after `opts`, the `assert` failing on a key already present. */
  function Merged(opts: Dict<string>, rest: Dict<string>): (r: Result<Dict<string>, Raised>)
    ensures r.Err? ==> r.error == AssertionFailed
    ensures r.Ok? ==> KeySet(opts) <= KeySet(r.value)
    decreases |rest|
  {
    if |rest| == 0 then Ok(opts)
    else if rest[0].1 == "" then Merged(opts, rest[1..])
    else if rest[0].0 in KeySet(opts) then Err(AssertionFailed)
    else Merged(Insert(opts, rest[0].0, rest[0].1), rest[1..])
  }

  /** The entries with a non-empty value, in order. */
  function NonEmpty(d: Dict<string>): (r: Dict<string>)
    ensures forall i :: 0 <= i < |r| ==> r[i].1 != ""
  {
    if |d| == 0 then [] else (if d[0].1 == "" then [] else [d[0]]) + NonEmpty(d[1..])
  }

  /** `NonEmpty` keeps a subset of the entries. */
  lemma {:induction false} NonEmptyIn(d: Dict<string>)
    ensures forall i :: 0 <= i < |NonEmpty(d)| ==> NonEmpty(d)[i] in d
  {
    if |d| > 0 {
      NonEmptyIn(d[1..]);
      var head := if d[0].1 == "" then [] else [d[0]];
      assert NonEmpty(d) == head + NonEmpty(d[1..]);
      assert forall e :: e in d[1..] ==> e in d;
    }
  }

  lemma {:induction false} NonEmptyUnique(d: Dict<string>)
    requires UniqueKeys(d)
    ensures UniqueKeys(NonEmpty(d))
  {
    if |d| > 0 {
      assert UniqueKeys(d[1..]);
      NonEmptyUnique(d[1..]);
      NonEmptyIn(d[1..]);
      var head := if d[0].1 == "" then [] else [d[0]];
      var tail := NonEmpty(d[1..]);
      forall i | 0 <= i < |tail| ensures tail[i].0 !in KeySet(head) {
        var m :| 0 <= m < |d[1..]| && tail[i] == d[1..][m];
        assert tail[i] == d[m + 1];
      }
      UniqueAppend(head, tail);
    }
  }

  /** No non-empty leftover option bears a key already in `opts`. */
  predicate Fits(opts: Dict<string>, rest: Dict<string>)
  {
    forall i :: 0 <= i < |rest| && rest[i].1 != "" ==> rest[i].0 !in KeySet(opts)
  }

  /** Skipping an empty leftover does not change whether the rest fits. */
  lemma FitsSkip(opts: Dict<string>, rest: Dict<string>)
    requires |rest| > 0 && rest[0].1 == ""
    ensures Fits(opts, rest) <==> Fits(opts, rest[1..])
  {
    assert forall i :: 1 <= i < |rest| ==> rest[i] == rest[1..][i - 1];
  }

  /** Adding a new leftover key keeps the rest fitting, as its keys differ. */
  lemma FitsAdd(opts: Dict<string>, rest: Dict<string>)
    requires UniqueKeys(rest) && |rest| > 0 && rest[0].1 != "" && rest[0].0 !in KeySet(opts)
    ensures Fits(opts, rest) <==> Fits(Insert(opts, rest[0].0, rest[0].1), rest[1..])
  {
    assert forall i :: 1 <= i < |rest| ==> rest[i] == rest[1..][i - 1] && rest[i].0 != rest[0].0;
  }

  /** The second loop succeeds exactly when the leftovers fit, and fails
      only on the `assert`. */
  lemma {:induction false} MergedOk(opts: Dict<string>, rest: Dict<string>)
    requires UniqueKeys(rest)
    ensures Merged(opts, rest).Ok? <==> Fits(opts, rest)
    ensures Merged(opts, rest).Err? ==> Merged(opts, rest).error == AssertionFailed
    decreases |rest|
  {
    if |rest| > 0 {
      assert UniqueKeys(rest[1..]);
      if rest[0].1 == "" {
        FitsSkip(opts, rest);
        MergedOk(opts, rest[1..]);
      } else if rest[0].0 !in KeySet(opts) {
        FitsAdd(opts, rest);
        MergedOk(Insert(opts, rest[0].0, rest[0].1), rest[1..]);
      }
    }
  }

  /** The second loop passes over an empty leftover. */
  lemma MergedSkip(opts: Dict<string>, rest: Dict<string>)
    requires |rest| > 0 && rest[0].1 == ""
    ensures Merged(opts, rest) == Merged(opts, rest[1..])
    ensures NonEmpty(rest) == NonEmpty(rest[1..])
  {
    assert NonEmpty(rest) == [] + NonEmpty(rest[1..]);
  }

  /** The second loop appends a non-empty leftover when it succeeds. */
  lemma MergedAppend(opts: Dict<string>, rest: Dict<string>)
    requires |rest| > 0 && rest[0].1 != "" && Merged(opts, rest).Ok?
    ensures Merged(opts, rest) == Merged(opts + [rest[0]], rest[1..])
    ensures NonEmpty(rest) == [rest[0]] + NonEmpty(rest[1..])
  {
    InsertNew(opts, rest[0].0, rest[0].1);
  }

  lemma AppendAssoc<T>(a: seq<T>, b: seq<T>, c: seq<T>)
    ensures a + b + c == a + (b + c)
  {
  }

  /** When the second loop succeeds it has appended the non-empty
      leftovers, in order. */
  lemma {:induction false} MergedValue(opts: Dict<string>, rest: Dict<string>)
    requires Merged(opts, rest).Ok?
    ensures Merged(opts, rest).value == opts + NonEmpty(rest)
    decreases |rest|
  {
    if |rest| == 0 {
      assert opts + [] == opts;
    } else if rest[0].1 == "" {
      MergedSkip(opts, rest);
      MergedValue(opts, rest[1..]);
    } else {
      var added := opts + [rest[0]];
      MergedAppend(opts, rest);
      MergedValue(added, rest[1..]);
      AppendAssoc(opts, [rest[0]], NonEmpty(rest[1..]));
    }
  }

  /** What `to_options` returns: the truthy declared fields in declaration
      order, then the non-empty leftovers in their order. It raises exactly
      when a non-empty leftover option bears the name of a truthy field. */
  function ConnectionOptions(c: Connection): (r: Result<Dict<string>, Raised>)
    requires Valid(c)
    ensures r.Err? <==> exists i, j :: (0 <= i < |c.unprocessed| && 0 <= j < |Fields(c.kind)|
      && c.unprocessed[i].1 != "" && c.unprocessed[i].0 == Fields(c.kind)[j] && Truthy(c.values[j]))
    ensures r.Err? ==> r.error == AssertionFailed
    ensures r.Ok? ==> UniqueKeys(r.value)
    ensures r.Ok? ==> r.value == Declared(Fields(c.kind), c.values) + NonEmpty(c.unprocessed)
  {
    var fs := Fields(c.kind);
    var d := Declared(fs, c.values);
    MergedOk(d, c.unprocessed);
    DeclaredKeySet(fs, c.values);
    if Merged(d, c.unprocessed).Ok? then
      MergedValue(d, c.unprocessed);
      NonEmptyUnique(c.unprocessed);
      ClashFree(d, NonEmpty(c.unprocessed), c.unprocessed);
      Merged(d, c.unprocessed)
    else
      Merged(d, c.unprocessed)
  }

  /** A key belongs to `Declared` exactly when it names a truthy field. */
  lemma DeclaredKeySet(names: seq<string>, values: seq<Option<string>>)
    requires |names| == |values|
    requires DistinctNames(names)
    ensures forall k :: (k in KeySet(Declared(names, values))
      <==> exists j :: 0 <= j < |names| && names[j] == k && Truthy(values[j]))
  {
    var d := Declared(names, values);
    forall k ensures k in KeySet(d) <==> exists j :: 0 <= j < |names| && names[j] == k && Truthy(values[j]) {
      if k in KeySet(d) {
        KeySetMember(d, k);
        var m :| 0 <= m < |d| && d[m].0 == k;
        var j :| 0 <= j < |names| && names[j] == k;
        DeclaredAt(names, values, j);
      } else {
        forall j | 0 <= j < |names| && names[j] == k ensures !Truthy(values[j]) {
          DeclaredAt(names, values, j);
        }
      }
    }
  }

  /** No clash and unique keys on both sides: the two parts together have
      unique keys. */
  lemma ClashFree(d: Dict<string>, n: Dict<string>, u: Dict<string>)
    requires UniqueKeys(d) && UniqueKeys(n) && n == NonEmpty(u)
    requires forall i :: 0 <= i < |u| && u[i].1 != "" ==> u[i].0 !in KeySet(d)
    ensures UniqueKeys(d + n)
  {
    NonEmptyIn(u);
    forall i | 0 <= i < |n| ensures n[i].0 !in KeySet(d) {
      var m :| 0 <= m < |u| && u[m] == n[i];
    }
    UniqueAppend(d, n);
  }

  /** `self.kind.to_options()`: the two loops, the `assert` as an error. */
  method ToOptions(c: Connection) returns (r: Result<Dict<string>, Raised>)
    requires Valid(c)
    ensures r == ConnectionOptions(c)
  {
    var opts := DeclaredOptions(Fields(c.kind), c.values);
    r := MergeLeftovers(opts, c.unprocessed);
  }

  /** The first loop of `to_options`: every truthy field value, in order. */
  method DeclaredOptions(fs: seq<string>, values: seq<Option<string>>) returns (opts: Dict<string>)
    requires |fs| == |values|
    ensures opts == Declared(fs, values)
  {
    opts := [];
    var i := 0;
    while i < |fs|
      invariant 0 <= i <= |fs|
      invariant opts == Declared(fs[..i], values[..i])
    {
      DeclaredStep(fs, values, i);
      var v := values[i];
      if Truthy(v) {
        opts := Insert(opts, fs[i], v.value);
      }
      i := i + 1;
    }
    assert fs[..i] == fs && values[..i] == values;
  }

  /** The second loop of `to_options`: the non-empty leftovers, each asserted
      to be new. */
  method MergeLeftovers(declared: Dict<string>, u: Dict<string>) returns (r: Result<Dict<string>, Raised>)
    ensures r == Merged(declared, u)
  {
    var opts := declared;
    var j := 0;
    while j < |u|
      invariant 0 <= j <= |u|
      invariant Merged(declared, u) == Merged(opts, u[j..])
    {
      assert u[j..][0] == u[j] && u[j..][1..] == u[j + 1..];
      var (k, v) := u[j];
      if v != "" {
        if k in KeySet(opts) {
          return Err(AssertionFailed);
        }
        opts := Insert(opts, k, v);
      }
      j := j + 1;
    }
    return Ok(opts);
  }

  // ---------------------------------------------------------------------------
  // HostConfiguration.to_line

  /** The option `to_line` puts first on a Vagrant record's line. */
  const VagrantEntry: (string, string) := ("ansible_connection", "vagrant")

  /** The option text of `to_line`: `k=v` items joined by single spaces, a
      Vagrant record's led by `ansible_connection=vagrant `. It is empty only
      for an SSH record without options. */
  function OptionsText(kind: Kind, opts: Dict<string>): (r: string)
    ensures r == "" <==> kind == Ssh && opts == []
    ensures kind == Vagrant ==>
      |r| > |Item(VagrantEntry)| && r[..|Item(VagrantEntry)| + 1] == Item(VagrantEntry) + " "
  {
    var text := Join(Items(opts), " ");
    JoinEmpty(Items(opts), " ");
    if kind == Vagrant then Item(VagrantEntry) + " " + text
    else
      assert kind == Ssh;
      assert text == "" <==> Items(opts) == [];
      text
  }

  /** `to_line()` as written: the condition of
      `" ".join([self.name] + [opts] if opts else [])` governs the whole list,
      so an empty option text gives an empty line, without the name. */
  function ToLine(h: Host): (r: Result<string, Raised>)
    requires Valid(h.conn)
    ensures r.Err? <==> ConnectionOptions(h.conn).Err?
    ensures r.Ok? ==> (r.value == "" <==> h.conn.kind == Ssh && ConnectionOptions(h.conn).value == [])
    ensures r.Ok? && r.value != "" ==> |r.value| > |h.name| && r.value[..|h.name| + 1] == h.name + " "
  {
    var opts :- ConnectionOptions(h.conn);
    var text := OptionsText(h.conn.kind, opts);
    Ok(if text == "" then "" else h.name + " " + text)
  }

  /** `to_line()` as evidently intended, `[self.name] + ([opts] if opts else [])`:
      the name always leads the line. */
  function ToLineIntended(h: Host): (r: Result<string, Raised>)
    requires Valid(h.conn)
    ensures r.Err? <==> ConnectionOptions(h.conn).Err?
    ensures r.Ok? ==> (r.value == h.name <==> h.conn.kind == Ssh && ConnectionOptions(h.conn).value == [])
    ensures r.Ok? ==> |r.value| >= |h.name| && r.value[..|h.name|] == h.name
  {
    var opts :- ConnectionOptions(h.conn);
    var text := OptionsText(h.conn.kind, opts);
    Ok(if text == "" then h.name else h.name + " " + text)
  }

  // ---------------------------------------------------------------------------
  // HostConfiguration.from_line

  /** The class `from_line` picks from the `ansible_connection` option: an
      absent option counts as `ssh`, and any value but `vagrant` and `ssh`
      fails `assert 0`. */
  function KindOf(connection: Option<string>): (r: Result<Kind, Raised>)
    ensures r == Ok(Vagrant) <==> connection == Some("vagrant")
    ensures r == Ok(Ssh) <==> connection == Some("ssh") || connection == None
    ensures r.Err? ==> r.error == AssertionFailed
  {
    match connection
    case None => Ok(Ssh)
    case Some(v) => if v == "vagrant" then Ok(Vagrant) else if v == "ssh" then Ok(Ssh) else Err(AssertionFailed)
  }

  /** The options `from_line` reads: the words after the first space, split
      into a dict. */
  function LineOptions(line: string): Dict<string>
  {
    OptionsOf(Tokens(Partition(line, ' ').1))
  }

  /** `HostConfiguration.from_line(line)` as written. The name is what precedes
      the first space. After `from_options`, `del opts["ansible_connection"]`
      acts on the record's own `unprocessed_options` (the same dict), and raises
      `KeyError` when a line without `ansible_connection` took the SSH branch. */
  function HostOfLine(line: string): (r: Result<Host, Raised>)
    ensures var opts := LineOptions(line);
      KindOf(Get(opts, "ansible_connection")).Err? ==> r == Err(AssertionFailed)
    ensures var opts := LineOptions(line);
      KindOf(Get(opts, "ansible_connection")).Ok? && "unprocessed_options" in KeySet(opts)
      ==> r == Err(DuplicateKeyword("unprocessed_options"))
    ensures var opts := LineOptions(line);
      KindOf(Get(opts, "ansible_connection")).Ok? && "unprocessed_options" !in KeySet(opts)
      ==> (r.Ok? <==> "ansible_connection" in KeySet(opts))
    ensures var opts := LineOptions(line);
      r.Err? && "ansible_connection" !in KeySet(opts) && "unprocessed_options" !in KeySet(opts)
      ==> r == Err(KeyError("ansible_connection"))
    ensures r.Ok? ==> Valid(r.value.conn) && r.value.name == Partition(line, ' ').0
    ensures var opts := LineOptions(line);
      r.Ok? ==> KindOf(Get(opts, "ansible_connection")) == Ok(r.value.conn.kind)
    ensures var opts := LineOptions(line);
      r.Ok? ==> forall j :: (0 <= j < |Fields(r.value.conn.kind)|
        ==> r.value.conn.values[j] == Get(opts, Fields(r.value.conn.kind)[j]))
    ensures var opts := LineOptions(line);
      r.Ok? ==> forall k :: (Get(r.value.conn.unprocessed, k)
        == if k in Fields(r.value.conn.kind) || k == "ansible_connection" then None else Get(opts, k))
  {
    var (name, optsStr) := Partition(line, ' ');
    var opts := OptionsOf(Tokens(optsStr));
    var kind :- KindOf(Get(opts, "ansible_connection"));
    var c :- ConnectionOf(kind, opts);
    if "ansible_connection" in KeySet(c.unprocessed) then
      RemoveGets(c.unprocessed, "ansible_connection");
      Ok(Host(name, c.(unprocessed := Remove(c.unprocessed, "ansible_connection"))))
    else
      Err(KeyError("ansible_connection"))
  }

  /** `from_line` as evidently intended: a missing `ansible_connection` means
      SSH, so it is taken out only when present (`opts.pop(..., None)`). */
  function HostOfLineIntended(line: string): (r: Result<Host, Raised>)
    ensures var opts := LineOptions(line);
      r.Ok? <==> KindOf(Get(opts, "ansible_connection")).Ok? && "unprocessed_options" !in KeySet(opts)
    ensures r.Ok? ==> Valid(r.value.conn) && r.value.name == Partition(line, ' ').0
    ensures r.Ok? ==> "ansible_connection" !in KeySet(r.value.conn.unprocessed)
  {
    var (name, optsStr) := Partition(line, ' ');
    var opts := OptionsOf(Tokens(optsStr));
    var kind :- KindOf(Get(opts, "ansible_connection"));
    var c :- ConnectionOf(kind, opts);
    RemoveGets(c.unprocessed, "ansible_connection");
    Ok(Host(name, c.(unprocessed := Remove(c.unprocessed, "ansible_connection"))))
  }

  /** `HostConfiguration.from_line(line)`, step by step. */
  method FromLine(line: string) returns (r: Result<Host, Raised>)
    ensures r == HostOfLine(line)
  {
    var (name, optsStr) := Partition(line, ' ');
    var opts := OptsStrToOpts(optsStr);
    var connection := Get(opts, "ansible_connection");
    var kind: Kind;
    if connection == Some("vagrant") {
      kind := Vagrant;
    } else if connection == Some("ssh") || connection == None {
      kind := Ssh;
    } else {
      return Err(AssertionFailed);
    }
    var c, rest := FromOptions(kind, opts);
    if c.Err? {
      return Err(c.error);
    }
    // `del opts["ansible_connection"]`: `opts` is now the record's
    // `unprocessed_options`, so the deletion shows in the record.
    if "ansible_connection" !in KeySet(rest) {
      return Err(KeyError("ansible_connection"));
    }
    rest := Remove(rest, "ansible_connection");
    return Ok(Host(name, c.value.(unprocessed := rest)));
  }

  // ---------------------------------------------------------------------------
  // from_hosts and into_hosts

  /** A line that `from_hosts` and `into_hosts` take for the host `name`: not
      blank, and its first whitespace-separated word is the name. */
  predicate Matches(line: string, name: string)
    ensures Matches(line, name) <==> |Tokens(line)| > 0 && Tokens(line)[0] == name
  {
    BlankIffNoTokens(line);
    !AllSpace(line) && Tokens(line)[0] == name
  }

  /** The position of the first line for `name`. */
  function FirstMatch(lines: seq<string>, name: string): (r: Option<nat>)
    ensures r.Some? ==> r.value < |lines| && Matches(lines[r.value], name)
    ensures r.Some? ==> forall i :: 0 <= i < r.value ==> !Matches(lines[i], name)
    ensures r.None? ==> forall i :: 0 <= i < |lines| ==> !Matches(lines[i], name)
  {
    if |lines| == 0 then None
    else if Matches(lines[0], name) then Some(0)
    else match FirstMatch(lines[1..], name)
      case None => None
      case Some(i) => Some(i + 1)
  }

  /** Line `i` is the first line for `name`. */
  predicate FirstFor(lines: seq<string>, name: string, i: nat)
  {
    i < |lines| && Matches(lines[i], name) && forall m :: 0 <= m < i ==> !Matches(lines[m], name)
  }

  /** There is one first line, and `FirstMatch` finds it. */
  lemma FirstMatchIs(lines: seq<string>, name: string)
    ensures forall i: nat :: FirstFor(lines, name, i) ==> FirstMatch(lines, name) == Some(i)
  {
    forall i: nat | FirstFor(lines, name, i) ensures FirstMatch(lines, name) == Some(i) {
      assert Matches(lines[i], name);
    }
  }

  /** A raised exception passes through; a record is found. */
  function Found(r: Result<Host, Raised>): Result<Option<Host>, Raised>
  {
    match r
    case Ok(h) => Ok(Some(h))
    case Err(e) => Err(e)
  }

  /** `HostConfiguration.from_hosts(name, hosts)`: the record on the first
      line for `name`, or `None`. */
  function FromHosts(name: string, hosts: string): (r: Result<Option<Host>, Raised>)
    ensures var lines := SplitLines(hosts);
      r == Ok(None) <==> forall i :: 0 <= i < |lines| ==> !Matches(lines[i], name)
    ensures var lines := SplitLines(hosts);
      forall i: nat :: FirstFor(lines, name, i) ==> r == Found(HostOfLine(lines[i]))
  {
    var lines := SplitLines(hosts);
    FirstMatchIs(lines, name);
    match FirstMatch(lines, name)
    case None => Ok(None)
    case Some(i) => Found(HostOfLine(lines[i]))
  }

  /** The lines `into_hosts` joins: the first line for `name` replaced by
      `line + "\n"`, or that line put in front when there is none. */
  function EditedLines(line: string, name: string, lines: seq<string>): (r: seq<string>)
    ensures FirstMatch(lines, name).None? ==> r == [line + "\n"] + lines
    ensures FirstMatch(lines, name).Some? ==>
      |r| == |lines|
      && r[FirstMatch(lines, name).value] == line + "\n"
      && forall i :: 0 <= i < |lines| && i != FirstMatch(lines, name).value ==> r[i] == lines[i]
  {
    match FirstMatch(lines, name)
    case Some(n) => lines[n := line + "\n"]
    case None => [line + "\n"] + lines
  }

  /** What `into_hosts(existing_hosts)` returns. */
  function HostsText(h: Host, existing: string): (r: Result<string, Raised>)
    requires Valid(h.conn)
    ensures r.Err? <==> ConnectionOptions(h.conn).Err?
    ensures r.Err? ==> r.error == AssertionFailed
    ensures r.Ok? && FirstMatch(SplitLinesKeep(existing), h.name).None? ==>
      r.value == ToLine(h).value + "\n" + existing
  {
    var line :- ToLine(h);
    var lines := SplitLinesKeep(existing);
    ConcatSplitLinesKeep(existing);
    ConcatAppend([line + "\n"], lines);
    assert Concat([line + "\n"]) == line + "\n" by {
      assert [line + "\n"][1..] == [];
    }
    Ok(Concat(EditedLines(line, h.name, lines)))
  }

  /** `HostConfiguration.into_hosts(existing_hosts)`: the loop over the lines
      with their endings, which overwrites the first line for the host in
      place or, failing that, prepends one. */
  method IntoHosts(h: Host, existingHosts: string) returns (r: Result<string, Raised>)
    requires Valid(h.conn)
    ensures r == HostsText(h, existingHosts)
  {
    var hostsLines := SplitLinesKeep(existingHosts);
    ghost var lines := hostsLines;
    var edited := false;
    var n := 0;
    while n < |hostsLines|
      invariant 0 <= n <= |hostsLines|
      invariant hostsLines == lines && !edited
      invariant forall i :: 0 <= i < n ==> !Matches(lines[i], h.name)
    {
      if AllSpace(hostsLines[n]) {
        n := n + 1;
        continue;
      }
      BlankIffNoTokens(hostsLines[n]);
      if Tokens(hostsLines[n])[0] == h.name {
        var line :- ToLine(h);
        FirstMatchIs(lines, h.name);
        assert FirstFor(lines, h.name, n);
        hostsLines := hostsLines[n := line + "\n"];
        edited := true;
        break;
      }
      n := n + 1;
    }
    if !edited {
      var line :- ToLine(h);
      hostsLines := [line + "\n"] + hostsLines;
    }
    return Ok(Concat(hostsLines));
  }

  // ---------------------------------------------------------------------------
  // Reading back what was written

  /** An option that `to_line` writes as one `k=v` word and `from_line`
      reads back: no whitespace, no `=` in the key, and a key that
      `from_line` does not claim for itself. */
  predicate PlainOption(e: (string, string))
  {
    NoSpace(e.0) && NoSpace(e.1) && '=' !in e.0
    && e.0 != "ansible_connection" && e.0 != "unprocessed_options"
  }

  /** A leftover option that reads back as a leftover: a plain option that is
      no field. */
  predicate Leftover(kind: Kind, e: (string, string))
  {
    PlainOption(e) && e.0 !in Fields(kind)
  }

  /** A record whose options survive a trip through a line. */
  predicate WritableConnection(c: Connection)
  {
    Valid(c)
    && (forall j :: 0 <= j < |c.values| && c.values[j].Some? ==> NoSpace(c.values[j].value))
    && (forall i :: 0 <= i < |c.unprocessed| ==> Leftover(c.kind, c.unprocessed[i]))
  }

  /** A host whose line reads back: its name holds no space, so it ends where
      `line.partition(" ")` cuts. */
  predicate Writable(h: Host)
  {
    ' ' !in h.name && WritableConnection(h.conn)
  }

  /** The record reading back gives: falsy fields become `None`, leftover
      options with empty values are gone. */
  function Normal(c: Connection): Connection
    requires Valid(c)
  {
    Connection(c.kind,
      seq(|c.values|, j requires 0 <= j < |c.values| => if Truthy(c.values[j]) then c.values[j] else None),
      NonEmpty(c.unprocessed))
  }

  /** The declared part of written options: plain field names with values
      free of whitespace. */
  lemma DeclaredPlain(c: Connection)
    requires WritableConnection(c)
    ensures forall i :: 0 <= i < |Declared(Fields(c.kind), c.values)| ==>
      Declared(Fields(c.kind), c.values)[i].0 in Fields(c.kind) && PlainOption(Declared(Fields(c.kind), c.values)[i])
  {
    var fs := Fields(c.kind);
    var d := Declared(fs, c.values);
    FieldNames(c.kind);
    forall i | 0 <= i < |d| ensures PlainOption(d[i]) {
      var j :| 0 <= j < |fs| && fs[j] == d[i].0;
      GetAt(d, i);
      DeclaredAt(fs, c.values, j);
    }
  }

  /** The non-empty leftovers of a writable record are writable leftovers. */
  lemma LeftoverEntries(c: Connection)
    requires WritableConnection(c)
    ensures forall i :: 0 <= i < |NonEmpty(c.unprocessed)| ==> Leftover(c.kind, NonEmpty(c.unprocessed)[i])
  {
    var u := c.unprocessed;
    NonEmptyIn(u);
    forall i | 0 <= i < |NonEmpty(u)| ensures Leftover(c.kind, NonEmpty(u)[i]) {
      var m :| 0 <= m < |u| && u[m] == NonEmpty(u)[i];
    }
  }

  /** A writable record's options do not clash. */
  lemma WrittenOk(c: Connection)
    requires WritableConnection(c)
    ensures ConnectionOptions(c).Ok?
  {
  }

  /** A writable record's options are plain, and hold neither key that
      `from_line` treats specially. */
  lemma WrittenPlain(c: Connection)
    requires WritableConnection(c)
    ensures ConnectionOptions(c).Ok?
    ensures var d := ConnectionOptions(c).value;
      Plain(d) && "ansible_connection" !in KeySet(d) && "unprocessed_options" !in KeySet(d)
  {
    var dd := Declared(Fields(c.kind), c.values);
    var n := NonEmpty(c.unprocessed);
    DeclaredPlain(c);
    assert AllPlain(dd);
    LeftoverEntries(c);
    assert AllPlain(n);
    WrittenOk(c);
    AllPlainAppend(dd, n);
    AllPlainKeys(ConnectionOptions(c).value);
  }

  /** Every entry is a plain option. */
  predicate AllPlain(d: Dict<string>)
  {
    forall i :: 0 <= i < |d| ==> PlainOption(d[i])
  }

  lemma AllPlainAppend(a: Dict<string>, b: Dict<string>)
    requires AllPlain(a) && AllPlain(b)
    ensures AllPlain(a + b)
  {
    forall i | 0 <= i < |a + b| ensures PlainOption((a + b)[i]) {
      if i >= |a| {
        assert (a + b)[i] == b[i - |a|];
      }
    }
  }

  /** Plain options with unique keys make a plain dict without the two keys
      `from_line` treats specially. */
  lemma AllPlainKeys(d: Dict<string>)
    requires AllPlain(d) && UniqueKeys(d)
    ensures Plain(d) && "ansible_connection" !in KeySet(d) && "unprocessed_options" !in KeySet(d)
  {
    KeySetMember(d, "ansible_connection");
    KeySetMember(d, "unprocessed_options");
  }

  /** Each field of a writable record's options holds its normalised value. */
  lemma WrittenFields(c: Connection)
    requires WritableConnection(c)
    ensures ConnectionOptions(c).Ok?
    ensures var d := ConnectionOptions(c).value;
      forall j :: 0 <= j < |Fields(c.kind)| ==> Get(d, Fields(c.kind)[j]) == Normal(c).values[j]
  {
    var fs := Fields(c.kind);
    var u := c.unprocessed;
    var dd := Declared(fs, c.values);
    var n := NonEmpty(u);
    LeftoverEntries(c);
    WrittenOk(c);
    var d := ConnectionOptions(c).value;
    forall j | 0 <= j < |fs| ensures Get(d, fs[j]) == Normal(c).values[j] {
      GetAppend(dd, n, fs[j]);
      DeclaredAt(fs, c.values, j);
      assert forall i :: 0 <= i < |n| ==> n[i].0 != fs[j];
      KeySetMember(n, fs[j]);
    }
  }

  /** Leaving out the fields from a writable record's options leaves its
      non-empty leftovers. */
  lemma WrittenLeftovers(c: Connection)
    requires WritableConnection(c)
    ensures ConnectionOptions(c).Ok?
    ensures Without(ConnectionOptions(c).value, Fields(c.kind)) == NonEmpty(c.unprocessed)
  {
    var fs := Fields(c.kind);
    var u := c.unprocessed;
    var dd := Declared(fs, c.values);
    var n := NonEmpty(u);
    NonEmptyIn(u);
    WrittenOk(c);
    forall i | 0 <= i < |n| ensures n[i].0 !in fs {
      var m :| 0 <= m < |u| && u[m] == n[i];
    }
    WithoutAppend(dd, n, fs);
    WithoutAll(dd, fs);
    WithoutNone(n, fs);
  }

  /** Reading written options, after an optional leading
      `ansible_connection=vagrant`, gives the normalised record back, with
      that leading option among the leftovers. */
  lemma ReadOptions(c: Connection, lead: Dict<string>)
    requires WritableConnection(c)
    requires lead == [] || lead == [VagrantEntry]
    ensures ConnectionOptions(c).Ok? && UniqueKeys(lead + ConnectionOptions(c).value)
    ensures ConnectionOf(c.kind, lead + ConnectionOptions(c).value)
      == Ok(Connection(c.kind, Normal(c).values, lead + NonEmpty(c.unprocessed)))
  {
    var fs := Fields(c.kind);
    WrittenPlain(c);
    WrittenFields(c);
    WrittenLeftovers(c);
    var d := ConnectionOptions(c).value;
    var opts := lead + d;
    KeySetMember(lead, "unprocessed_options");
    UniqueAppend(lead, d);
    KeySetAppend(lead, d);
    var r := ConnectionOf(c.kind, opts);
    forall j | 0 <= j < |fs| ensures Get(opts, fs[j]) == Normal(c).values[j] {
      GetAppend(lead, d, fs[j]);
    }
    assert r.value.values == Normal(c).values;
    WithoutAppend(lead, d, fs);
    WithoutNone(lead, fs);
  }

  /** The literal pieces of a Vagrant line. */
  lemma VagrantEntryPlain()
    ensures Plain([VagrantEntry])
  {
    assert Identifier(VagrantEntry.0) && Identifier(VagrantEntry.1);
    IdentifierPlain(VagrantEntry.0);
    IdentifierPlain(VagrantEntry.1);
  }

  /** Written option text splits into its items. */
  lemma ItemsTokens(d: Dict<string>)
    requires Plain(d)
    ensures Tokens(Join(Items(d), " ")) == Items(d)
  {
    ItemWords(d);
    TokensJoin(Items(d));
  }

  /** `ansible_connection=vagrant` is one word. */
  lemma VagrantItemWord()
    ensures |Item(VagrantEntry)| > 0 && NoSpace(Item(VagrantEntry))
  {
    VagrantEntryPlain();
    ItemWords([VagrantEntry]);
    assert Items([VagrantEntry])[0] == Item(VagrantEntry);
  }

  lemma ItemsCons(e: (string, string), d: Dict<string>)
    ensures Items([e] + d) == [Item(e)] + Items(d)
  {
    assert forall i :: 1 <= i < |d| + 1 ==> ([e] + d)[i] == d[i - 1];
  }

  /** Text led by one word and a space splits into that word and the items
      of the rest. */
  lemma LedTokens(e: (string, string), d: Dict<string>)
    requires |Item(e)| > 0 && NoSpace(Item(e)) && Plain(d)
    ensures Tokens(Item(e) + " " + Join(Items(d), " ")) == Items([e] + d)
  {
    TokensLead(Item(e), Join(Items(d), " "));
    ItemsTokens(d);
    ItemsCons(e, d);
  }

  /** The option text of a Vagrant line splits into the items of its
      options led by `ansible_connection=vagrant`. */
  lemma VagrantTokens(d: Dict<string>)
    requires Plain(d)
    ensures Tokens(OptionsText(Vagrant, d)) == Items([VagrantEntry] + d)
  {
    VagrantItemWord();
    LedTokens(VagrantEntry, d);
  }

  /** The leading Vagrant option keeps written options plain. */
  lemma VagrantPlain(d: Dict<string>)
    requires Plain(d) && "ansible_connection" !in KeySet(d)
    ensures Plain([VagrantEntry] + d)
  {
    VagrantEntryPlain();
    var all := [VagrantEntry] + d;
    UniqueAppend([VagrantEntry], d);
    forall i | 0 <= i < |all| ensures '=' !in all[i].0 && NoSpace(all[i].0) && NoSpace(all[i].1) {
      if i > 0 {
        assert all[i] == d[i - 1];
      }
    }
  }

  /** The option text of a Vagrant line reads back as its options led by
      `ansible_connection=vagrant`. */
  lemma ReadVagrantText(d: Dict<string>)
    requires Plain(d) && "ansible_connection" !in KeySet(d)
    ensures OptionsOf(Tokens(OptionsText(Vagrant, d))) == [VagrantEntry] + d
  {
    VagrantTokens(d);
    VagrantPlain(d);
    OptionsOfItems([VagrantEntry] + d);
  }

  /** `line.partition(" ")` of a written line gives back the name and the
      option text. */
  lemma SplitWritten(name: string, text: string)
    requires ' ' !in name
    ensures Partition(name + " " + text, ' ') == (name, text)
  {
    assert name + " " + text == name + [' '] + text;
    PartitionAt(name, ' ', text);
  }

  /** Round trip of a Vagrant record through its line: `from_line(to_line())`
      restores the name, every truthy field and every non-empty leftover
      option, and turns falsy fields into `None`. */
  lemma VagrantRoundTrip(h: Host)
    requires Writable(h) && h.conn.kind == Vagrant
    ensures ToLine(h).Ok?
    ensures HostOfLine(ToLine(h).value) == Ok(Host(h.name, Normal(h.conn)))
  {
    var c := h.conn;
    WrittenPlain(c);
    var d := ConnectionOptions(c).value;
    var text := OptionsText(Vagrant, d);
    SplitWritten(h.name, text);
    ReadVagrantText(d);
    ReadOptions(c, [VagrantEntry]);
    var opts := [VagrantEntry] + d;
    assert Get(opts, "ansible_connection") == Some("vagrant");
    assert Remove([VagrantEntry] + NonEmpty(c.unprocessed), "ansible_connection") == NonEmpty(c.unprocessed);
  }

  /** The options an SSH line reads back, whether `to_line` wrote the name or
      not. */
  lemma ReadSshLine(h: Host, line: string)
    requires Writable(h) && h.conn.kind == Ssh
    requires ToLine(h).Ok? && (line == ToLine(h).value || line == ToLineIntended(h).value)
    ensures LineOptions(line) == ConnectionOptions(h.conn).value
    ensures line != "" ==> Partition(line, ' ').0 == h.name
  {
    var c := h.conn;
    WrittenPlain(c);
    var d := ConnectionOptions(c).value;
    var text := OptionsText(Ssh, d);
    ReadText(d);
    if text == "" {
      JoinEmpty(Items(d), " ");
      assert d == [];
      if line == h.name {
        assert h.name == h.name + [];
        assert ' ' !in h.name;
      }
    } else {
      SplitWritten(h.name, text);
    }
  }

  /** As written, an SSH line never reads back: `to_line` does not write
      `ansible_connection` for SSH, and `from_line` then deletes that key from
      the leftovers, which raises `KeyError`. */
  lemma SshLineUnreadable(h: Host)
    requires Writable(h) && h.conn.kind == Ssh
    ensures ToLine(h).Ok?
    ensures HostOfLine(ToLine(h).value) == Err(KeyError("ansible_connection"))
  {
    WrittenPlain(h.conn);
    ReadSshLine(h, ToLine(h).value);
  }

  /** Where `from_line` does not raise `KeyError`, the intended reading agrees
      with it. */
  lemma IntendedAgrees(line: string)
    ensures HostOfLine(line) != Err(KeyError("ansible_connection")) ==> HostOfLineIntended(line) == HostOfLine(line)
  {
    var opts := LineOptions(line);
    match KindOf(Get(opts, "ansible_connection"))
    case Err(_) =>
    case Ok(kind) =>
      match ConnectionOf(kind, opts)
      case Err(_) =>
      case Ok(c) =>
        assert "ansible_connection" !in KeySet(c.unprocessed) ==> Remove(c.unprocessed, "ansible_connection") == c.unprocessed;
  }

  /** Read as intended, an SSH line written with the name gives the
      normalised record back. */
  lemma ReadSshIntended(h: Host, line: string)
    requires Writable(h) && h.conn.kind == Ssh && ToLine(h).Ok?
    requires line == ToLineIntended(h).value || (line == ToLine(h).value && line != "")
    ensures HostOfLineIntended(line) == Ok(Host(h.name, Normal(h.conn)))
  {
    var c := h.conn;
    ReadSshLine(h, line);
    WrittenPlain(c);
    ReadOptions(c, []);
    var d := ConnectionOptions(c).value;
    assert [] + d == d;
    var n := NonEmpty(c.unprocessed);
    assert [] + n == n;
    LeftoverEntries(c);
    KeySetMember(n, "ansible_connection");
    if line == "" {
      assert |h.name| == 0;
    }
  }

  /** `from_line(to_line())` as intended restores every writable record:
      its name, every truthy field and every non-empty leftover option. */
  lemma RoundTripIntended(h: Host)
    requires Writable(h)
    ensures ToLineIntended(h).Ok?
    ensures HostOfLineIntended(ToLineIntended(h).value) == Ok(Host(h.name, Normal(h.conn)))
  {
    WrittenOk(h.conn);
    if h.conn.kind == Vagrant {
      VagrantRoundTrip(h);
      IntendedAgrees(ToLine(h).value);
    } else {
      ReadSshIntended(h, ToLineIntended(h).value);
    }
  }

  /** An SSH record without options has an empty line and an empty `to_line`. */
  lemma EmptySshLine(name: string)
    ensures var h := Host(name, Connection(Ssh, [None, None, None, None], []));
      Valid(h.conn) && ConnectionOptions(h.conn) == Ok([]) && ToLine(h) == Ok("")
  {
    var h := Host(name, Connection(Ssh, [None, None, None, None], []));
    DeclaredNone(Fields(Ssh), h.conn.values);
  }

  /** A single newline is one blank line, which names no host. */
  lemma NewlineNamesNoHost(name: string)
    ensures SplitLinesKeep("\n") == ["\n"]
    ensures FromHosts(name, "\n") == Ok(None)
  {
    var s := "\n";
    assert LineEnd(s) == 1;
    assert s[..1] == s && s[1..] == "";
    assert SplitLinesKeep(s) == [s];
    assert SplitLines(s)[0] == "";
  }

  /** An empty line goes into an empty hosts file as a single newline. */
  lemma EmptyLineHostsText(h: Host)
    requires Valid(h.conn) && ToLine(h) == Ok("")
    ensures HostsText(h, "") == Ok("\n")
  {
    assert SplitLinesKeep("") == [];
    assert "" + "\n" == "\n";
    assert EditedLines("", h.name, []) == ["\n"];
    assert HostsText(h, "") == Ok(Concat(EditedLines("", h.name, SplitLinesKeep(""))));
    assert ["\n"][1..] == [];
    assert Concat(["\n"]) == "\n" + Concat([]);
    assert "\n" + "" == "\n";
  }

  /** As written, an SSH record without options has an empty line: the name
      is lost, `into_hosts` writes a blank line, and `from_hosts` finds
      nothing there. */
  lemma EmptySshLineDropsName(h: Host)
    requires Valid(h.conn) && h.conn.kind == Ssh && ConnectionOptions(h.conn) == Ok([])
    ensures ToLine(h) == Ok("") && HostsText(h, "") == Ok("\n")
    ensures FromHosts(h.name, "\n") == Ok(None)
  {
    assert ToLine(h) == Ok("");
    EmptyLineHostsText(h);
    NewlineNamesNoHost(h.name);
  }

  // ---------------------------------------------------------------------------
  // The hosts file after `into_hosts`

  /** `into_hosts` tests lines with their terminators, `from_hosts` without:
      the two tests agree. */
  lemma MatchesStripped(line: string, name: string)
    ensures Matches(StripEnd(line), name) <==> Matches(line, name)
  {
    var r := StripEnd(line);
    assert line == r + line[|r|..];
    TokensTrailingSpace(r, line[|r|..]);
    BlankIffNoTokens(r);
    BlankIffNoTokens(line);
  }

  /** A new line put in front of well-formed lines keeps them well formed. */
  lemma PrependedPieces(line: string, ls: seq<string>)
    requires NoLineBreak(line) && LinePieces(ls)
    ensures LinePieces([line + "\n"] + ls)
  {
    var e := [line + "\n"] + ls;
    forall i | 0 <= i < |e| ensures |e[i]| > 0 && LineEnd(e[i] + Concat(e[i + 1..])) == |e[i]| {
      if i == 0 {
        assert e[1..] == ls;
        LineEndNewline(line, Concat(ls));
      } else {
        assert e[i] == ls[i - 1];
        assert e[i + 1..] == ls[i..];
      }
    }
  }

  /** A non-empty new line put in place of one of well-formed lines keeps them
      well formed: it begins with no `\n` that could join a `\r` before it. */
  lemma ReplacedPieces(line: string, ls: seq<string>, n: nat)
    requires NoLineBreak(line) && |line| > 0 && LinePieces(ls) && n < |ls|
    ensures LinePieces(ls[n := line + "\n"])
  {
    var e := ls[n := line + "\n"];
    forall i | 0 <= i < |e| ensures |e[i]| > 0 && LineEnd(e[i] + Concat(e[i + 1..])) == |e[i]| {
      if i == n {
        assert e[n + 1..] == ls[n + 1..];
        LineEndNewline(line, Concat(ls[n + 1..]));
      } else if i > n {
        assert e[i + 1..] == ls[i + 1..];
      } else {
        ConcatFirst(ls[i + 1..]);
        ConcatFirst(e[i + 1..]);
        if i + 1 == n {
          assert e[i + 1][0] == line[0];
          assert !IsLineBreak(line[0]);
        }
        LineEndStable(ls[i], Concat(ls[i + 1..]), Concat(e[i + 1..]));
      }
    }
  }

  /** Edited lines cut back into themselves once joined. */
  lemma EditedText(line: string, name: string, existing: string)
    requires NoLineBreak(line) && |line| > 0
    ensures var e := EditedLines(line, name, SplitLinesKeep(existing));
      SplitLinesKeep(Concat(e)) == e
  {
    var ls := SplitLinesKeep(existing);
    SplitLinesKeepPieces(existing);
    match FirstMatch(ls, name) {
      case Some(n) => ReplacedPieces(line, ls, n);
      case None => PrependedPieces(line, ls);
    }
    SplitLinesKeepConcat(EditedLines(line, name, ls));
  }

  /** The text `into_hosts` returns cuts into exactly the edited lines: the
      first line for the host replaced by the new line, or the new line in
      front, and every other line as it was, in the same order. */
  lemma IntoHostsKeepsLines(h: Host, existing: string)
    requires Valid(h.conn) && ToLine(h).Ok?
    requires NoLineBreak(ToLine(h).value) && |ToLine(h).value| > 0
    ensures HostsText(h, existing).Ok?
    ensures SplitLinesKeep(HostsText(h, existing).value)
      == EditedLines(ToLine(h).value, h.name, SplitLinesKeep(existing))
  {
    EditedText(ToLine(h).value, h.name, existing);
  }

  /** A host whose line names it is what `from_hosts` finds after
      `into_hosts`: the new line is the first line for the host. */
  lemma IntoHostsFromHosts(h: Host, existing: string)
    requires Valid(h.conn) && ToLine(h).Ok?
    requires NoLineBreak(ToLine(h).value) && Matches(ToLine(h).value, h.name)
    ensures HostsText(h, existing).Ok?
    ensures FromHosts(h.name, HostsText(h, existing).value) == Found(HostOfLine(ToLine(h).value))
  {
    var line := ToLine(h).value;
    var ls := SplitLinesKeep(existing);
    IntoHostsKeepsLines(h, existing);
    var e := EditedLines(line, h.name, ls);
    var lines := SplitLines(HostsText(h, existing).value);
    var k := match FirstMatch(ls, h.name) case Some(n) => n case None => 0;
    StripNewline(line);
    assert lines[k] == line;
    forall m | 0 <= m < k ensures !Matches(lines[m], h.name) {
      MatchesStripped(e[m], h.name);
    }
    assert FirstFor(lines, h.name, k);
  }

  /** Written option text holds no whitespace but single spaces. */
  lemma TextSpaced(c: Connection)
    requires WritableConnection(c)
    ensures ConnectionOptions(c).Ok?
    ensures Spaced(OptionsText(c.kind, ConnectionOptions(c).value))
  {
    WrittenPlain(c);
    var d := ConnectionOptions(c).value;
    ItemWords(d);
    SpacedJoin(Items(d));
    if c.kind == Vagrant {
      VagrantItemWord();
      SpacedAppend(Item(VagrantEntry), " ");
      SpacedAppend(Item(VagrantEntry) + " ", Join(Items(d), " "));
    }
  }

  /** A written line with text holds no line boundary and is a line for its
      host, when the host name is one word. */
  lemma LineShape(h: Host)
    requires Writable(h) && |h.name| > 0 && NoSpace(h.name)
    ensures ToLine(h).Ok?
    ensures ToLine(h).value != "" ==> NoLineBreak(ToLine(h).value) && Matches(ToLine(h).value, h.name)
  {
    TextSpaced(h.conn);
    var text := OptionsText(h.conn.kind, ConnectionOptions(h.conn).value);
    var line := ToLine(h).value;
    if line != "" {
      SpacedAppend(h.name, " ");
      SpacedAppend(h.name + " ", text);
      SpacedNoLineBreak(line);
      TokensLead(h.name, text);
      BlankIffNoTokens(line);
    }
  }

  /** A Vagrant host put into any hosts file is found there again, as its
      normalised record. */
  lemma VagrantHostsRoundTrip(h: Host, existing: string)
    requires Writable(h) && h.conn.kind == Vagrant && |h.name| > 0 && NoSpace(h.name)
    ensures HostsText(h, existing).Ok?
    ensures FromHosts(h.name, HostsText(h, existing).value) == Ok(Some(Host(h.name, Normal(h.conn))))
  {
    VagrantRoundTrip(h);
    LineShape(h);
    IntoHostsFromHosts(h, existing);
  }

  /** As written, an SSH host with options put into any hosts file is found
      there again, but reading its line raises `KeyError`. */
  lemma SshHostNotReloaded(h: Host, existing: string)
    requires Writable(h) && h.conn.kind == Ssh && |h.name| > 0 && NoSpace(h.name)
    requires ConnectionOptions(h.conn) != Ok([])
    ensures HostsText(h, existing).Ok?
    ensures FromHosts(h.name, HostsText(h, existing).value) == Err(KeyError("ansible_connection"))
  {
    SshLineUnreadable(h);
    LineShape(h);
    IntoHostsFromHosts(h, existing);
  }
}
