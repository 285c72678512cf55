/** Turning argument dictionaries into command lines: `args_dict_to_list` and
    `inner_args_dict_to_list` of libvirt-compose.py, `subargs_to_str`,
    `args_map_expand` and `args_map_to_list` of virt_compose.py. */
module Args {
  import opened Text
  import opened Wrappers
  import opened Dicts

  /** A scalar of the manifest: Python `None`, a bool, an int or a str. */
  datatype Scalar = Null | Bool(b: bool) | Int(i: int) | Str(s: string)

  /** A dictionary value: a scalar, or a nested dictionary of scalars. */
  datatype Item = Atom(a: Scalar) | Sub(entries: Dict<Scalar>)

  /** A top-level value of a virt_compose.py machine: one item or a list of items. */
  datatype Value = One(item: Item) | Many(items: seq<Item>)

  /** Python's `str(v)` (and the text an f-string interpolates). */
  function Repr(v: Scalar): string {
    match v
    case Null => "None"
    case Bool(b) => if b then "True" else "False"
    case Int(i) => IntToString(i)
    case Str(s) => s
  }

  // ---------------------------------------------------------------------------
  // Command-line flags and their parser

  /** A flag of a command line: `--key` followed by an argument unless it is bare. */
  type Flags = Dict<Option<string>>

  /** The words of a command line that spells out `fs` in order. */
  function Argv(fs: Flags): seq<string> {
    if fs == [] then []
    else ["--" + fs[0].0] + (if fs[0].1.Some? then [fs[0].1.value] else []) + Argv(fs[1..])
  }

  predicate IsOption(w: string) {
    IsPrefix("--", w)
  }

  /** Reads a command line back into flags: `--key` takes the next word as its
      argument unless that word is itself an option. */
  function ParseArgv(argv: seq<string>): Flags
    decreases |argv|
  {
    if argv == [] then []
    else
      var key := if |argv[0]| >= 2 then argv[0][2..] else argv[0];
      if |argv| >= 2 && !IsOption(argv[1]) then [(key, Some(argv[1]))] + ParseArgv(argv[2..])
      else [(key, None)] + ParseArgv(argv[1..])
  }

  /** No argument looks like an option. */
  predicate PlainArguments(fs: Flags) {
    forall i :: 0 <= i < |fs| && fs[i].1.Some? ==> !IsOption(fs[i].1.value)
  }

  /** The command line determines the flags: parsing it gives them back. */
  lemma {:induction false} ParseArgvRoundTrip(fs: Flags)
    requires PlainArguments(fs)
    ensures ParseArgv(Argv(fs)) == fs
  {
    if fs != [] {
      var argv := Argv(fs);
      var rest := Argv(fs[1..]);
      assert PlainArguments(fs[1..]) by {
        forall i | 0 <= i < |fs[1..]| && fs[1..][i].1.Some? ensures !IsOption(fs[1..][i].1.value) {
          assert fs[1..][i] == fs[i + 1];
        }
      }
      ParseArgvRoundTrip(fs[1..]);
      assert ("--" + fs[0].0)[2..] == fs[0].0;
      if fs[0].1.Some? {
        assert argv == ["--" + fs[0].0, fs[0].1.value] + rest;
        assert argv[2..] == rest;
      } else {
        assert argv == ["--" + fs[0].0] + rest;
        assert argv[1..] == rest;
        if rest != [] {
          assert IsOption(rest[0]);
        }
      }
    }
  }

  // ---------------------------------------------------------------------------
  // `k=v` lists joined by commas, and their parser

  /** `k` for a bare entry, `k=v` otherwise. */
  function KvPart(k: string, v: Option<string>): string {
    if v.Some? then k + "=" + v.value else k
  }

  function KvParts(fs: Flags): (ps: seq<string>)
    ensures |ps| == |fs|
    ensures forall i :: 0 <= i < |fs| ==> ps[i] == KvPart(fs[i].0, fs[i].1)
  {
    if fs == [] then [] else [KvPart(fs[0].0, fs[0].1)] + KvParts(fs[1..])
  }

  /** `",".join(...)` of the parts. */
  function KvText(fs: Flags): string {
    Join(",", KvParts(fs))
  }

  /** Reads one part back: the key is the text before the first `=`. */
  function ParseKvPart(p: string): (string, Option<string>)
    decreases |p|
  {
    if p == [] then ([], None)
    else if p[0] == '=' then ([], Some(p[1..]))
    else
      var r := ParseKvPart(p[1..]);
      ([p[0]] + r.0, r.1)
  }

  function ParseKvParts(ps: seq<string>): (fs: Flags)
    ensures |fs| == |ps|
  {
    if ps == [] then [] else [ParseKvPart(ps[0])] + ParseKvParts(ps[1..])
  }

  function ParseKv(s: string): Flags {
    ParseKvParts(Split(s, ','))
  }

  lemma {:induction false} ParseKvPartOf(k: string, v: Option<string>)
    requires '=' !in k
    ensures ParseKvPart(KvPart(k, v)) == (k, v)
  {
    if k == [] {
      if v.Some? {
        assert KvPart(k, v) == ['='] + v.value;
        assert KvPart(k, v)[1..] == v.value;
      }
    } else {
      assert '=' !in k[1..];
      ParseKvPartOf(k[1..], v);
      assert KvPart(k, v)[1..] == KvPart(k[1..], v);
      assert [k[0]] + k[1..] == k;
    }
  }

  lemma {:induction false} SplitJoinParts(ps: seq<string>)
    requires ps != []
    requires forall i :: 0 <= i < |ps| ==> ',' !in ps[i]
    ensures Split(Join(",", ps), ',') == ps
  {
    if |ps| == 1 {
      SplitWithout(ps[0], ',');
    } else {
      SplitJoinParts(ps[1..]);
      assert Join(",", ps) == ps[0] + [','] + Join(",", ps[1..]);
      SplitAtFirst(ps[0], ',', Join(",", ps[1..]));
      assert ps == [ps[0]] + ps[1..];
    }
  }

  lemma {:induction false} ParseKvPartsOf(fs: Flags)
    requires forall i :: 0 <= i < |fs| ==> '=' !in fs[i].0
    ensures ParseKvParts(KvParts(fs)) == fs
  {
    if fs != [] {
      ParseKvPartOf(fs[0].0, fs[0].1);
      assert KvParts(fs)[1..] == KvParts(fs[1..]);
      ParseKvPartsOf(fs[1..]);
    }
  }

  /** Well-formed `k=v` entries: keys free of `,` and `=`, values free of `,`. */
  predicate KvSafe(fs: Flags) {
    forall i :: 0 <= i < |fs| ==>
      ',' !in fs[i].0 && '=' !in fs[i].0 && (fs[i].1.Some? ==> ',' !in fs[i].1.value)
  }

  /** A non-empty list of safe entries is recovered from its text. */
  lemma KvRoundTrip(fs: Flags)
    requires fs != [] && KvSafe(fs)
    ensures ParseKv(KvText(fs)) == fs
  {
    var ps := KvParts(fs);
    forall i | 0 <= i < |ps| ensures ',' !in ps[i] {
      if fs[i].1.Some? {
        assert ps[i] == fs[i].0 + ['='] + fs[i].1.value;
      }
    }
    SplitJoinParts(ps);
    ParseKvPartsOf(fs);
  }

  // ---------------------------------------------------------------------------
  // libvirt-compose.py

  /** Python's `value in [False, None]`; since `0 == False`, the integer 0 is caught too. */
  predicate Dropped(v: Scalar) {
    v == Null || v == Bool(false) || v == Int(0)
  }

  /** What `inner_args_dict_to_list` makes of one value: nothing for False/None/0, a bare key
      for True, `k=str(v)` otherwise. */
  function InnerFlag(v: Scalar): Option<Option<string>> {
    if Dropped(v) then None else if v == Bool(true) then Some(None) else Some(Some(Repr(v)))
  }

  /** The entries `inner_args_dict_to_list` keeps, in key order. */
  function InnerFlags(d: Dict<Scalar>): Flags {
    Collect(d, InnerFlag)
  }

  /** `inner_args_dict_to_list`. */
  function InnerArgs(d: Dict<Scalar>): string {
    KvText(InnerFlags(d))
  }

  /** The one-entry meaning of `inner_args_dict_to_list`, for a dictionary without repeated keys:
      a key is present iff its value is not False, None or 0; it is bare iff the value is True. */
  lemma InnerFlagsGet(d: Dict<Scalar>, k: string)
    requires Distinct(d)
    ensures Get(InnerFlags(d), k) ==
      match Get(d, k)
      case None => None
      case Some(v) => if Dropped(v) then None else Some(if v == Bool(true) then None else Some(Repr(v)))
  {
    GetCollect(d, InnerFlag, k);
  }

  /** When its entries are well formed, the text of `inner_args_dict_to_list` reads back into
      exactly the kept entries. */
  lemma InnerArgsRoundTrip(d: Dict<Scalar>)
    requires InnerFlags(d) != [] && KvSafe(InnerFlags(d))
    ensures ParseKv(InnerArgs(d)) == InnerFlags(d)
  {
    KvRoundTrip(InnerFlags(d));
  }

  /** The flag an entry of `args_dict_to_list` produces, if any. */
  function ItemFlag(v: Item): Option<Option<string>> {
    match v
    case Atom(s) => InnerFlag(s)
    case Sub(d) => Some(Some(InnerArgs(d)))
  }

  /** The flags `args_dict_to_list` writes, in key order. */
  function LibvirtFlags(args: Dict<Item>): Flags {
    Collect(args, ItemFlag)
  }

  lemma {:induction false} ArgvAppend(fs: Flags, gs: Flags)
    ensures Argv(fs + gs) == Argv(fs) + Argv(gs)
  {
    if fs != [] {
      assert (fs + gs)[0] == fs[0];
      assert (fs + gs)[1..] == fs[1..] + gs;
      ArgvAppend(fs[1..], gs);
    } else {
      assert fs + gs == gs;
    }
  }

  /** `args_dict_to_list`: the loop appends `--key` and then the value text, skipping
      False/None/0 values and the value of True. */
  method ArgsDictToList(args: Dict<Item>) returns (result: seq<string>)
    ensures result == Argv(LibvirtFlags(args))
  {
    result := [];
    var n := 0;
    while n < |args|
      invariant 0 <= n <= |args|
      invariant result == Argv(LibvirtFlags(args[..n]))
    {
      var (key, value) := args[n];
      LibvirtFlagsStep(args, n);
      if value.Atom? && Dropped(value.a) {
        n := n + 1;
        continue;
      }
      result := result + ["--" + key];
      if value == Atom(Bool(true)) {
        n := n + 1;
        continue;
      }
      if value.Sub? {
        result := result + [InnerArgs(value.entries)];
        n := n + 1;
        continue;
      }
      result := result + [Repr(value.a)];
      n := n + 1;
    }
    assert args[..n] == args;
  }

  /** One more entry adds what the loop of `args_dict_to_list` writes for it. */
  lemma LibvirtFlagsStep(args: Dict<Item>, n: nat)
    requires n < |args|
    ensures var (key, value) := args[n];
      Argv(LibvirtFlags(args[..n + 1])) == Argv(LibvirtFlags(args[..n])) +
        if value.Atom? && Dropped(value.a) then []
        else if value == Atom(Bool(true)) then ["--" + key]
        else if value.Sub? then ["--" + key, InnerArgs(value.entries)]
        else ["--" + key, Repr(value.a)]
  {
    var (key, value) := args[n];
    assert args[..n + 1] == args[..n] + [(key, value)];
    CollectAppend(args[..n], key, value, ItemFlag);
    ArgvAppend(LibvirtFlags(args[..n]), match ItemFlag(value) case None => [] case Some(a) => [(key, a)]);
  }

  /** The one-entry meaning of `args_dict_to_list`, for a dictionary without repeated keys. */
  lemma LibvirtFlagsGet(args: Dict<Item>, k: string)
    requires Distinct(args)
    ensures Get(LibvirtFlags(args), k) ==
      match Get(args, k) case None => None case Some(v) => ItemFlag(v)
  {
    GetCollect(args, ItemFlag, k);
  }

  /** The text an entry writes after its `--key`, if any, does not look like an option. */
  predicate PlainItem(v: Item) {
    var f := ItemFlag(v);
    f.None? || f.value.None? || !IsOption(f.value.value)
  }

  /** Entries none of whose texts looks like an option give a command line whose arguments
      do not either. */
  lemma {:induction false} PlainLibvirtFlags(args: Dict<Item>)
    requires forall i :: 0 <= i < |args| ==> PlainItem(args[i].1)
    ensures PlainArguments(LibvirtFlags(args))
  {
    if args != [] {
      assert forall i :: 0 <= i < |args[1..]| ==> PlainItem(args[1..][i].1) by {
        forall i | 0 <= i < |args[1..]| ensures PlainItem(args[1..][i].1) {
          assert args[1..][i] == args[i + 1];
        }
      }
      PlainLibvirtFlags(args[1..]);
      var rest := LibvirtFlags(args[1..]);
      match ItemFlag(args[0].1)
      case None =>
      case Some(a) =>
        var fs := [(args[0].0, a)] + rest;
        assert LibvirtFlags(args) == fs;
        forall i | 0 <= i < |fs| && fs[i].1.Some? ensures !IsOption(fs[i].1.value) {
          if i > 0 {
            assert fs[i] == rest[i - 1];
          }
        }
    }
  }

  /** `str(i)` starts with a digit, or with `-` and a digit: never like an option. */
  lemma IntNotOption(i: int)
    ensures !IsOption(IntToString(i))
  {
    var s := IntToString(i);
    if i < 0 {
      assert s[1] == NatToString(-i)[0];
    }
  }

  lemma {:induction false} JoinStarts(sep: string, parts: seq<string>)
    requires parts != []
    ensures |parts[0]| <= |Join(sep, parts)| && Join(sep, parts)[..|parts[0]|] == parts[0]
  {
  }

  /** The text of `inner_args_dict_to_list` starts with its first key when that entry is kept. */
  lemma InnerArgsNotOption(d: Dict<Scalar>)
    requires d != [] && !Dropped(d[0].1) && d[0].0 != [] && d[0].0[0] != '-'
    ensures !IsOption(InnerArgs(d))
  {
    var fs := InnerFlags(d);
    assert fs == [(d[0].0, InnerFlag(d[0].1).value)] + InnerFlags(d[1..]);
    var ps := KvParts(fs);
    JoinStarts(",", ps);
    assert ps[0][0] == d[0].0[0];
    assert InnerArgs(d)[0] == ps[0][0];
  }

  // ---------------------------------------------------------------------------
  // virt_compose.py

  /** The flags of a dictionary of scalars, one per key: `None` has no argument, everything
      else `str(v)`. Both `subargs_to_str` (as `k` or `k=v`) and `args_map_expand` (as `--k`
      or `--k v`) write these. */
  function ScalarFlags(d: Dict<Scalar>): (fs: Flags)
    ensures |fs| == |d|
    ensures forall i :: 0 <= i < |d| ==>
      fs[i] == (d[i].0, if d[i].1 == Null then None else Some(Repr(d[i].1)))
  {
    if d == [] then [] else [(d[0].0, if d[0].1 == Null then None else Some(Repr(d[0].1)))] + ScalarFlags(d[1..])
  }

  /** `subargs_to_str`. */
  function SubargsToStr(d: Dict<Scalar>): string {
    KvText(ScalarFlags(d))
  }

  /** Unlike `inner_args_dict_to_list`, `subargs_to_str` drops nothing: its text lists every key,
      False writes `k=False` and True writes `k=True`. */
  lemma SubargsRoundTrip(d: Dict<Scalar>)
    requires d != [] && KvSafe(ScalarFlags(d))
    ensures ParseKv(SubargsToStr(d)) == ScalarFlags(d)
    ensures Keys(ParseKv(SubargsToStr(d))) == Keys(d)
  {
    KvRoundTrip(ScalarFlags(d));
  }

  /** What one item contributes in `args_map_to_list`: a dict becomes its `subargs_to_str` text. */
  function ItemScalar(x: Item): Scalar {
    match x
    case Atom(s) => s
    case Sub(d) => Str(SubargsToStr(d))
  }

  function ItemsOf(v: Value): seq<Item> {
    match v
    case One(x) => [x]
    case Many(xs) => xs
  }

  /** The inner loop of the dictionary comprehension: every item is assigned to the same key. */
  function AssignAll(acc: Dict<Scalar>, k: string, xs: seq<Item>): Dict<Scalar>
    decreases |xs|
  {
    if xs == [] then acc else AssignAll(Set(acc, k, ItemScalar(xs[0])), k, xs[1..])
  }

  /** The dictionary comprehension of `args_map_to_list`, run over the entries in order. */
  function Comprehension(acc: Dict<Scalar>, args: Dict<Value>): Dict<Scalar>
    decreases |args|
  {
    if args == [] then acc else Comprehension(AssignAll(acc, args[0].0, ItemsOf(args[0].1)), args[1..])
  }

  /** What a key keeps in the intended reading: the last item of its list, or nothing
      when the list is empty. */
  function LastItem(v: Value): (r: Option<Scalar>)
    ensures r.None? <==> ItemsOf(v) == []
  {
    var xs := ItemsOf(v);
    if xs == [] then None else Some(ItemScalar(xs[|xs| - 1]))
  }

  /** The intended reading of the comprehension: each key keeps only the last item of its
      list, and a key whose list is empty disappears. */
  function LastItems(args: Dict<Value>): Dict<Scalar> {
    Collect(args, LastItem)
  }

  lemma {:induction false} SetFresh<V>(d: Dict<V>, k: string, v: V)
    requires k !in Keys(d)
    ensures Set(d, k, v) == d + [(k, v)]
  {
    if d != [] {
      SetFresh(d[1..], k, v);
    }
  }

  lemma {:induction false} SetLast<V>(d: Dict<V>, k: string, v: V, w: V)
    requires k !in Keys(d)
    ensures Set(d + [(k, v)], k, w) == d + [(k, w)]
  {
    if d != [] {
      assert (d + [(k, v)])[1..] == d[1..] + [(k, v)];
      SetLast(d[1..], k, v, w);
    }
  }

  lemma {:induction false} AssignAllLast(acc: Dict<Scalar>, k: string, xs: seq<Item>)
    requires k !in Keys(acc) && xs != []
    ensures AssignAll(acc, k, xs) == acc + [(k, ItemScalar(xs[|xs| - 1]))]
    decreases |xs|
  {
    SetFresh(acc, k, ItemScalar(xs[0]));
    AssignAllMore(acc, k, ItemScalar(xs[0]), xs[1..]);
    if xs[1..] != [] {
      assert xs[1..][|xs[1..]| - 1] == xs[|xs| - 1];
    }
  }

  lemma {:induction false} AssignAllMore(acc: Dict<Scalar>, k: string, v: Scalar, xs: seq<Item>)
    requires k !in Keys(acc)
    ensures AssignAll(acc + [(k, v)], k, xs) ==
      acc + [(k, if xs == [] then v else ItemScalar(xs[|xs| - 1]))]
    decreases |xs|
  {
    if xs != [] {
      SetLast(acc, k, v, ItemScalar(xs[0]));
      AssignAllMore(acc, k, ItemScalar(xs[0]), xs[1..]);
      if xs[1..] != [] {
        assert xs[1..][|xs[1..]| - 1] == xs[|xs| - 1];
      }
    }
  }

  lemma FreshAfterAppend(acc: Dict<Scalar>, k: string, w: Scalar, args: Dict<Value>)
    requires Distinct(args) && args != [] && args[0].0 == k
    requires forall i :: 0 <= i < |args| ==> args[i].0 !in Keys(acc)
    ensures forall i :: 0 <= i < |args[1..]| ==> args[1..][i].0 !in Keys(acc + [(k, w)])
  {
    assert Keys(acc + [(k, w)]) == Keys(acc) + [k];
    forall i | 0 <= i < |args[1..]| ensures args[1..][i].0 !in Keys(acc + [(k, w)]) {
      assert args[1..][i] == args[i + 1];
    }
  }

  lemma {:induction false} ComprehensionIsLastItems(acc: Dict<Scalar>, args: Dict<Value>)
    requires Distinct(args)
    requires forall i :: 0 <= i < |args| ==> args[i].0 !in Keys(acc)
    ensures Comprehension(acc, args) == acc + LastItems(args)
    decreases |args|
  {
    if args != [] {
      var (k, v) := args[0];
      var acc' := AssignAll(acc, k, ItemsOf(v));
      DistinctTail(args);
      assert Comprehension(acc, args) == Comprehension(acc', args[1..]);
      match LastItem(v)
      case None =>
        assert acc' == acc;
        ComprehensionIsLastItems(acc', args[1..]);
        assert LastItems(args) == LastItems(args[1..]);
      case Some(w) =>
        AssignAllLast(acc, k, ItemsOf(v));
        FreshAfterAppend(acc, k, w, args);
        ComprehensionIsLastItems(acc + [(k, w)], args[1..]);
        assert LastItems(args) == [(k, w)] + LastItems(args[1..]);
        assert acc + [(k, w)] + LastItems(args[1..]) == acc + LastItems(args);
    }
  }

  /** One more entry adds `--key`, then `str(value)` unless the value is None. */
  lemma ExpandFlagsStep(m: Dict<Scalar>, n: nat)
    requires n < |m|
    ensures var (key, value) := m[n];
      Argv(ScalarFlags(m[..n + 1])) == Argv(ScalarFlags(m[..n])) + ["--" + key] + if value != Null then [Repr(value)] else []
  {
    var (key, value) := m[n];
    assert m[..n + 1] == m[..n] + [(key, value)];
    assert ScalarFlags(m[..n + 1]) == ScalarFlags(m[..n]) + ScalarFlags([(key, value)]);
    ArgvAppend(ScalarFlags(m[..n]), ScalarFlags([(key, value)]));
  }

  /** `args_map_expand`: one `--key` per entry, followed by `str(value)` unless the value is None. */
  method ArgsMapExpand(m: Dict<Scalar>) returns (result: seq<string>)
    ensures result == Argv(ScalarFlags(m))
  {
    result := [];
    var n := 0;
    while n < |m|
      invariant 0 <= n <= |m|
      invariant result == Argv(ScalarFlags(m[..n]))
    {
      var (key, value) := m[n];
      ExpandFlagsStep(m, n);
      result := result + ["--" + key];
      if value != Null {
        result := result + [Repr(value)];
      }
      n := n + 1;
    }
    assert m[..n] == m;
  }

  /** `args_map_to_list`: the comprehension, then `args_map_expand`. For a dictionary without
      repeated keys this is one flag per key with a non-empty value, in key order, where a list
      contributes only its last element. */
  method ArgsMapToList(args: Dict<Value>) returns (result: seq<string>)
    ensures result == Argv(ScalarFlags(Comprehension([], args)))
    ensures Distinct(args) ==> result == Argv(ScalarFlags(LastItems(args)))
  {
    result := ArgsMapExpand(Comprehension([], args));
    if Distinct(args) {
      ComprehensionIsLastItems([], args);
      assert [] + LastItems(args) == LastItems(args);
    }
  }

  /** A command line of `args_map_to_list` whose arguments do not look like options reads back
      into the last-item dictionary. */
  lemma ArgsMapToListRoundTrip(args: Dict<Value>)
    requires Distinct(args) && PlainArguments(ScalarFlags(LastItems(args)))
    ensures ParseArgv(Argv(ScalarFlags(Comprehension([], args)))) == ScalarFlags(LastItems(args))
  {
    ComprehensionIsLastItems([], args);
    assert [] + LastItems(args) == LastItems(args);
    ParseArgvRoundTrip(ScalarFlags(LastItems(args)));
  }

  /** The last-item reading, key by key. */
  lemma LastItemsGet(args: Dict<Value>, k: string)
    requires Distinct(args)
    ensures Get(LastItems(args), k) ==
      match Get(args, k)
      case None => None
      case Some(v) => if ItemsOf(v) == [] then None else Some(ItemScalar(ItemsOf(v)[|ItemsOf(v)| - 1]))
  {
    GetCollect(args, LastItem, k);
  }
}
