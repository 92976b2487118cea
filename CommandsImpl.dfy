/** Class-based commands of filament/commands/impl.py: the `opt` helper that
    fills in `required` and `default`, the class-level registry of
    subcommands that `CommandLike.child` appends to, and the assembly of the
    arguments a `CommandLike` instance hands to lightbulb. */
module CommandsImpl {

  import opened Wrappers
  import opened Python

  /** `lightbulb.commands.OptionLike(name, description, **kwargs)`. */
  datatype OptionLike = OptionLike(name: string, description: string, kwargs: map<string, PyValue>)

  /** `d.setdefault(key, value)`, for its effect on `d`. */
  function SetDefault(d: map<string, PyValue>, key: string, value: PyValue): (r: map<string, PyValue>)
    ensures key in r && r.Keys == d.Keys + {key}
    ensures key in d ==> r == d
    ensures key !in d ==> r[key] == value
    ensures forall k :: k in d ==> r[k] == d[k]
  {
    if key in d then d else d[key := value]
  }

  /** `d.get(key, default)`. */
  function Get(d: map<string, PyValue>, key: string, default: PyValue): (r: PyValue)
    ensures key in d ==> r == d[key]
    ensures key !in d ==> r == default
  {
    if key in d then d[key] else default
  }

  /** `opt(name, description, **kwargs)`: an option is required by default
      exactly when it has no default; an option that ends up not required and
      has no default gets the default None; explicit values are kept. */
  method Opt(name: string, description: string, kwargs: map<string, PyValue>) returns (o: OptionLike)
    ensures o.name == name && o.description == description
    ensures "required" in o.kwargs
    ensures "required" in kwargs ==> o.kwargs["required"] == kwargs["required"]
    ensures "required" !in kwargs ==>
      o.kwargs["required"] == PyBool("default" !in kwargs || kwargs["default"] == PyUndefined)
    ensures "default" in kwargs ==> "default" in o.kwargs && o.kwargs["default"] == kwargs["default"]
    ensures "default" !in kwargs ==> ("default" in o.kwargs <==> !Truthy(o.kwargs["required"]))
    ensures "default" !in kwargs && !Truthy(o.kwargs["required"]) ==> o.kwargs["default"] == PyNone
    ensures forall k :: k != "required" && k != "default" ==> (k in o.kwargs <==> k in kwargs)
    ensures forall k :: k in kwargs && k != "required" && k != "default" ==> o.kwargs[k] == kwargs[k]
  {
    var kw := kwargs;
    kw := SetDefault(kw, "required", PyBool(Get(kw, "default", PyUndefined) == PyUndefined));
    if !Truthy(kw["required"]) {
      kw := SetDefault(kw, "default", PyNone);
    }
    o := OptionLike(name, description, kw);
  }

  /** A `CommandLike` subclass, by its qualified name. */
  type ClassId = string

  /** What `child` returns: the registered class, or the decorator that will
      register the class it is applied to under `parent`. */
  datatype ChildResult = Registered(cls: ClassId) | ChildDecorator(parent: ClassId)

  /** The class-level dictionaries shared by every `CommandLike` subclass. The
      three handler registries are written by code outside this model and
      only read here. */
  class CommandLikeRegistry {
    var subcommands: map<ClassId, seq<ClassId>>
    var errorHandlers: map<ClassId, string>
    var helpGetters: map<ClassId, string>
    var checkExempts: map<ClassId, string>

    constructor ()
      ensures subcommands == map[] && errorHandlers == map[]
      ensures helpGetters == map[] && checkExempts == map[]
    {
      subcommands := map[];
      errorHandlers := map[];
      helpGetters := map[];
      checkExempts := map[];
    }

    /** `_subcommands.get(cls, [])`. */
    function SubcommandsOf(cls: ClassId): (r: seq<ClassId>)
      reads this
      ensures cls in subcommands ==> r == subcommands[cls]
      ensures cls !in subcommands ==> r == []
    {
      if cls in subcommands then subcommands[cls] else []
    }

    /** `CommandLike._subcommands[cls].append(other)` on the `defaultdict`. */
    method Append(cls: ClassId, other: ClassId)
      modifies this
      ensures SubcommandsOf(cls) == old(SubcommandsOf(cls)) + [other]
      ensures forall c :: c != cls ==> SubcommandsOf(c) == old(SubcommandsOf(c))
      ensures subcommands.Keys == old(subcommands.Keys) + {cls}
      ensures errorHandlers == old(errorHandlers) && helpGetters == old(helpGetters)
      ensures checkExempts == old(checkExempts)
    {
      subcommands := subcommands[cls := SubcommandsOf(cls) + [other]];
    }

    /** `cls.child(other)`: with a class, register it and return it; without
        one, return the decorator and register nothing yet. */
    method Child(cls: ClassId, other: Option<ClassId>) returns (r: ChildResult)
      modifies this
      ensures other.Some? ==> r == Registered(other.value)
      ensures other.Some? ==> SubcommandsOf(cls) == old(SubcommandsOf(cls)) + [other.value]
      ensures other.Some? ==> subcommands.Keys == old(subcommands.Keys) + {cls}
      ensures other.None? ==> r == ChildDecorator(cls) && subcommands == old(subcommands)
      ensures forall c :: c != cls ==> SubcommandsOf(c) == old(SubcommandsOf(c))
      ensures errorHandlers == old(errorHandlers) && helpGetters == old(helpGetters)
      ensures checkExempts == old(checkExempts)
    {
      if other.Some? {
        Append(cls, other.value);
        r := Registered(other.value);
      } else {
        r := ChildDecorator(cls);
      }
    }

    /** The decorator returned by `parent.child()` applied to `other`. */
    method ApplyChildDecorator(parent: ClassId, other: ClassId) returns (r: ClassId)
      modifies this
      ensures r == other
      ensures SubcommandsOf(parent) == old(SubcommandsOf(parent)) + [other]
      ensures subcommands.Keys == old(subcommands.Keys) + {parent}
      ensures forall c :: c != parent ==> SubcommandsOf(c) == old(SubcommandsOf(c))
      ensures errorHandlers == old(errorHandlers) && helpGetters == old(helpGetters)
      ensures checkExempts == old(checkExempts)
    {
      Append(parent, other);
      r := other;
    }
  }

  /** Registering two children of one class, in either form, keeps them in
      registration order. */
  method RegisterTwoChildren(registry: CommandLikeRegistry, parent: ClassId, a: ClassId, b: ClassId)
    modifies registry
    ensures registry.SubcommandsOf(parent) == old(registry.SubcommandsOf(parent)) + [a, b]
  {
    var ra := registry.Child(parent, Some(a));
    var d := registry.Child(parent, None);
    var rb := registry.ApplyChildDecorator(d.parent, b);
  }

  /** `dict.get(key)` on a handler registry. */
  function Lookup(m: map<ClassId, string>, cls: ClassId): (r: Option<string>)
    ensures r.None? <==> cls !in m
    ensures r.Some? ==> r.value == m[cls]
  {
    if cls in m then Some(m[cls]) else None
  }

  /** A value of the `guilds` property: one id, a sequence of ids, or
      `hikari.UNDEFINED`. */
  datatype Guilds = GuildId(id: int) | GuildIds(ids: seq<int>) | UndefinedGuilds

  /** `guilds if not isinstance(guilds, int) else [guilds]`. */
  function NormaliseGuilds(g: Guilds): (r: Guilds)
    ensures !r.GuildId?
    ensures g.GuildId? ==> r == GuildIds([g.id])
    ensures !g.GuildId? ==> r == g
  {
    match g
    case GuildId(id) => GuildIds([id])
    case _ => g
  }

  /** The value `getattr(self, item)` for one name of `dir(self)`. */
  datatype Attribute = OptionAttribute(option: OptionLike) | OtherAttribute

  predicate Declares(attributes: seq<Attribute>, i: int, n: string) {
    0 <= i < |attributes| && attributes[i].OptionAttribute? && attributes[i].option.name == n
  }

  /** `i` is the last attribute before position `upto` declaring option `n`. */
  predicate LastDeclarationBefore(attributes: seq<Attribute>, upto: int, i: int, n: string) {
    i < upto && Declares(attributes, i, n) && forall j :: i < j < upto ==> !Declares(attributes, j, n)
  }

  /** `i` is the first attribute declaring option `n`. */
  predicate FirstDeclaration(attributes: seq<Attribute>, i: int, n: string) {
    Declares(attributes, i, n) && forall j :: 0 <= j < i ==> !Declares(attributes, j, n)
  }

  /** Option `n` is first declared before position `k`. */
  ghost predicate FirstDeclaredBefore(attributes: seq<Attribute>, k: int, n: string) {
    exists i :: i < k && FirstDeclaration(attributes, i, n)
  }

  /** Option `m` is first declared before option `n` is. */
  ghost predicate FirstDeclaredInOrder(attributes: seq<Attribute>, m: string, n: string) {
    exists i, j :: i < j && FirstDeclaration(attributes, i, m) && FirstDeclaration(attributes, j, n)
  }

  /** A Python `dict` from option names to options: its entries in insertion
      order. */
  type OptionDict = seq<(string, OptionLike)>

  /** The keys of `d`, in insertion order. */
  function Keys(d: OptionDict): (ks: seq<string>)
    ensures |ks| == |d|
    ensures forall p :: 0 <= p < |d| ==> ks[p] == d[p].0
  {
    if d == [] then [] else [d[0].0] + Keys(d[1..])
  }

  predicate DistinctKeys(d: OptionDict) {
    forall p, q :: 0 <= p < q < |d| ==> d[p].0 != d[q].0
  }

  /** `d[n] = o`: a key already present keeps its place and takes the new
      value; a new key goes last. */
  function Assign(d: OptionDict, n: string, o: OptionLike): (r: OptionDict)
    requires DistinctKeys(d)
    ensures DistinctKeys(r)
    ensures n in Keys(d) ==> Keys(r) == Keys(d)
    ensures n !in Keys(d) ==> Keys(r) == Keys(d) + [n]
    ensures forall p :: 0 <= p < |r| && r[p].0 == n ==> r[p].1 == o
    ensures forall p :: 0 <= p < |r| && r[p].0 != n ==> p < |d| && r[p] == d[p]
  {
    if n in Keys(d) then
      seq(|d|, p requires 0 <= p < |d| => if d[p].0 == n then (n, o) else d[p])
    else
      d + [(n, o)]
  }

  /** The options found among the first `k` attribute values. */
  function ScanOptions(attributes: seq<Attribute>, k: nat): (r: OptionDict)
    requires k <= |attributes|
    ensures DistinctKeys(r)
  {
    if k == 0 then []
    else
      var found := ScanOptions(attributes, k - 1);
      match attributes[k - 1]
      case OptionAttribute(o) => Assign(found, o.name, o)
      case OtherAttribute => found
  }

  /** One step of the scan: the attribute at `k - 1` either leaves the dict
      alone or assigns its option under its name. */
  lemma ScanStep(attributes: seq<Attribute>, k: nat)
    requires 0 < k <= |attributes|
    ensures var prev, cur := ScanOptions(attributes, k - 1), ScanOptions(attributes, k);
      && (forall p :: 0 <= p < |cur| && !Declares(attributes, k - 1, cur[p].0) ==> p < |prev| && cur[p] == prev[p])
      && (forall p :: 0 <= p < |cur| && Declares(attributes, k - 1, cur[p].0) ==> cur[p].1 == attributes[k - 1].option)
    ensures var prev, cur := ScanOptions(attributes, k - 1), ScanOptions(attributes, k);
      if attributes[k - 1].OptionAttribute? && attributes[k - 1].option.name !in Keys(prev)
      then Keys(cur) == Keys(prev) + [attributes[k - 1].option.name]
      else Keys(cur) == Keys(prev)
  {
  }

  /** Exactly the names some scanned attribute declares are keys. */
  lemma {:induction false} ScanOptionsKeys(attributes: seq<Attribute>, k: nat)
    requires k <= |attributes|
    ensures forall n :: n in Keys(ScanOptions(attributes, k)) <==> exists i :: i < k && Declares(attributes, i, n)
  {
    if k > 0 {
      ScanOptionsKeys(attributes, k - 1);
      ScanStep(attributes, k);
      var prev, cur := Keys(ScanOptions(attributes, k - 1)), Keys(ScanOptions(attributes, k));
      forall n | n in cur
        ensures exists i :: i < k && Declares(attributes, i, n)
      {
        if Declares(attributes, k - 1, n) {
          assert k - 1 < k;
        } else {
          assert n in prev;
        }
      }
      forall n | exists i :: i < k && Declares(attributes, i, n)
        ensures n in cur
      {
        var i :| i < k && Declares(attributes, i, n);
        if i < k - 1 {
          assert exists j :: j < k - 1 && Declares(attributes, j, n);
          assert n in prev;
        } else if n !in prev {
          assert cur[|cur| - 1] == n;
        }
      }
    }
  }

  /** Each entry holds the option of its name's last declaration. */
  lemma {:induction false} ScanOptionsLastWins(attributes: seq<Attribute>, k: nat, r: OptionDict)
    requires k <= |attributes| && r == ScanOptions(attributes, k)
    ensures forall p :: 0 <= p < |r| ==>
      exists i :: LastDeclarationBefore(attributes, k, i, r[p].0) && r[p].1 == attributes[i].option
  {
    if k > 0 {
      var prev := ScanOptions(attributes, k - 1);
      ScanOptionsLastWins(attributes, k - 1, prev);
      ScanStep(attributes, k);
      forall p | 0 <= p < |r|
        ensures exists i :: LastDeclarationBefore(attributes, k, i, r[p].0) && r[p].1 == attributes[i].option
      {
        if Declares(attributes, k - 1, r[p].0) {
          assert LastDeclarationBefore(attributes, k, k - 1, r[p].0);
        } else {
          assert p < |prev| && r[p] == prev[p];
          var i :| LastDeclarationBefore(attributes, k - 1, i, prev[p].0) && prev[p].1 == attributes[i].option;
          assert LastDeclarationBefore(attributes, k, i, r[p].0);
        }
      }
    }
  }

  /** Every entry's name is first declared before position `k`. */
  lemma {:induction false} ScanOptionsFirstSeen(attributes: seq<Attribute>, k: nat, r: OptionDict)
    requires k <= |attributes| && r == ScanOptions(attributes, k)
    ensures forall p :: 0 <= p < |r| ==> FirstDeclaredBefore(attributes, k, r[p].0)
  {
    if k > 0 {
      var prev := ScanOptions(attributes, k - 1);
      ScanOptionsFirstSeen(attributes, k - 1, prev);
      ScanStep(attributes, k);
      ScanOptionsKeys(attributes, k - 1);
      forall p | 0 <= p < |r|
        ensures FirstDeclaredBefore(attributes, k, r[p].0)
      {
        assert r[p].0 == Keys(r)[p];
        if p < |prev| {
          assert r[p].0 == Keys(prev)[p] == prev[p].0;
          var i :| i < k - 1 && FirstDeclaration(attributes, i, prev[p].0);
          assert i < k && FirstDeclaration(attributes, i, r[p].0);
        } else {
          assert r[p].0 == attributes[k - 1].option.name && r[p].0 !in Keys(prev);
          assert FirstDeclaration(attributes, k - 1, r[p].0);
        }
      }
    }
  }

  /** The entries are in the order of their names' first declarations. */
  lemma {:induction false} ScanOptionsOrder(attributes: seq<Attribute>, k: nat, r: OptionDict)
    requires k <= |attributes| && r == ScanOptions(attributes, k)
    ensures forall p, q :: 0 <= p < q < |r| ==> FirstDeclaredInOrder(attributes, r[p].0, r[q].0)
  {
    if k > 0 {
      var prev := ScanOptions(attributes, k - 1);
      ScanOptionsOrder(attributes, k - 1, prev);
      ScanOptionsFirstSeen(attributes, k - 1, prev);
      ScanStep(attributes, k);
      ScanOptionsKeys(attributes, k - 1);
      forall p, q | 0 <= p < q < |r|
        ensures FirstDeclaredInOrder(attributes, r[p].0, r[q].0)
      {
        assert r[p].0 == Keys(r)[p] == Keys(prev)[p] == prev[p].0;
        assert r[q].0 == Keys(r)[q];
        if q < |prev| {
          assert r[q].0 == Keys(prev)[q] == prev[q].0;
          assert FirstDeclaredInOrder(attributes, prev[p].0, prev[q].0);
        } else {
          assert r[q].0 == attributes[k - 1].option.name && r[q].0 !in Keys(prev);
          var i :| i < k - 1 && FirstDeclaration(attributes, i, prev[p].0);
          assert FirstDeclaration(attributes, k - 1, r[q].0);
          assert i < k - 1 && FirstDeclaration(attributes, i, r[p].0);
        }
      }
    }
  }

  /** An option declared again keeps the place of its first declaration and
      takes the value of the later one; declaring two options the other way
      round gives the dict in the other order. */
  lemma RedeclaredOptionKeepsItsPlace(a: OptionLike, b: OptionLike, c: OptionLike)
    requires a.name == c.name && a.name != b.name
    ensures ScanOptions([OptionAttribute(a), OptionAttribute(b), OptionAttribute(c)], 3) == [(a.name, c), (b.name, b)]
    ensures ScanOptions([OptionAttribute(b), OptionAttribute(a)], 2) == [(b.name, b), (a.name, a)]
  {
    var attributes := [OptionAttribute(a), OptionAttribute(b), OptionAttribute(c)];
    AssignNew([], a.name, a);
    assert ScanOptions(attributes, 1) == [(a.name, a)];
    AssignNew([(a.name, a)], b.name, b);
    assert ScanOptions(attributes, 2) == [(a.name, a), (b.name, b)];
    AssignFirstOfTwo(a.name, a, b.name, b, c);
    var swapped := [OptionAttribute(b), OptionAttribute(a)];
    AssignNew([], b.name, b);
    assert ScanOptions(swapped, 1) == [(b.name, b)];
    AssignNew([(b.name, b)], a.name, a);
  }

  /** Assigning a new key appends it. */
  lemma AssignNew(d: OptionDict, n: string, o: OptionLike)
    requires DistinctKeys(d) && forall p :: 0 <= p < |d| ==> d[p].0 != n
    ensures Assign(d, n, o) == d + [(n, o)]
  {
    assert n !in Keys(d);
  }

  /** Assigning the first of two keys replaces its value in place. */
  lemma AssignFirstOfTwo(n: string, x: OptionLike, m: string, y: OptionLike, o: OptionLike)
    requires n != m
    ensures Assign([(n, x), (m, y)], n, o) == [(n, o), (m, y)]
  {
    assert Keys([(n, x), (m, y)])[0] == n;
  }

  /** `_find_options` over the attribute values in scan order: the dict of
      options keyed by their own names, each name placed where it was first
      seen and holding the option seen last. */
  method FindOptions(attributes: seq<Attribute>) returns (options: OptionDict)
    ensures options == ScanOptions(attributes, |attributes|)
    ensures DistinctKeys(options)
    ensures forall n :: n in Keys(options) <==> exists i :: Declares(attributes, i, n)
    ensures forall p :: 0 <= p < |options| ==>
      exists i :: LastDeclarationBefore(attributes, |attributes|, i, options[p].0) && options[p].1 == attributes[i].option
    ensures forall p, q :: 0 <= p < q < |options| ==> FirstDeclaredInOrder(attributes, options[p].0, options[q].0)
  {
    options := [];
    var k := 0;
    while k < |attributes|
      invariant 0 <= k <= |attributes|
      invariant options == ScanOptions(attributes, k)
    {
      if attributes[k].OptionAttribute? {
        var o := attributes[k].option;
        options := Assign(options, o.name, o);
      }
      k := k + 1;
    }
    ScanOptionsKeys(attributes, |attributes|);
    ScanOptionsLastWins(attributes, |attributes|, options);
    ScanOptionsOrder(attributes, |attributes|, options);
  }

  /** The properties of a `CommandLike` subclass that `_as_lightbulb_commandlike`
      reads, with the attribute values `_find_options` scans. */
  datatype CommandDeclaration = CommandDeclaration(
    cls: ClassId,
    implements: seq<string>,
    name: string,
    description: string,
    attributes: seq<Attribute>,
    checks: seq<string>,
    aliases: seq<string>,
    guilds: Guilds,
    autoDefer: bool,
    ephemeral: bool,
    hidden: bool,
    inheritChecks: bool)

  /** The arguments passed to `lightbulb.commands.CommandLike`; `subcommands`
      names the classes instantiated, in order. */
  datatype CommandLikeArgs = CommandLikeArgs(
    callbackTypes: seq<string>,
    name: string,
    description: string,
    options: OptionDict,
    checks: seq<string>,
    errorHandler: Option<string>,
    aliases: seq<string>,
    guilds: Guilds,
    subcommands: seq<ClassId>,
    helpGetter: Option<string>,
    autoDefer: bool,
    ephemeral: bool,
    checkExempt: Option<string>,
    hidden: bool,
    inheritChecks: bool)

  /** `_as_lightbulb_commandlike`: options discovered by name, the class's
      registry entries (None when missing), guilds normalised, subcommands in
      registration order, the other properties passed through. */
  method AsLightbulbCommandLike(registry: CommandLikeRegistry, decl: CommandDeclaration) returns (args: CommandLikeArgs)
    ensures args.callbackTypes == decl.implements
    ensures args.name == decl.name && args.description == decl.description
    ensures args.options == ScanOptions(decl.attributes, |decl.attributes|)
    ensures args.checks == decl.checks && args.aliases == decl.aliases
    ensures args.errorHandler.None? <==> decl.cls !in registry.errorHandlers
    ensures args.errorHandler.Some? ==> args.errorHandler.value == registry.errorHandlers[decl.cls]
    ensures args.helpGetter.None? <==> decl.cls !in registry.helpGetters
    ensures args.helpGetter.Some? ==> args.helpGetter.value == registry.helpGetters[decl.cls]
    ensures args.checkExempt.None? <==> decl.cls !in registry.checkExempts
    ensures args.checkExempt.Some? ==> args.checkExempt.value == registry.checkExempts[decl.cls]
    ensures !args.guilds.GuildId?
    ensures decl.guilds.GuildId? ==> args.guilds == GuildIds([decl.guilds.id])
    ensures !decl.guilds.GuildId? ==> args.guilds == decl.guilds
    ensures args.subcommands == registry.SubcommandsOf(decl.cls)
    ensures args.autoDefer == decl.autoDefer && args.ephemeral == decl.ephemeral
    ensures args.hidden == decl.hidden && args.inheritChecks == decl.inheritChecks
  {
    var options := FindOptions(decl.attributes);
    args := CommandLikeArgs(
      decl.implements,
      decl.name,
      decl.description,
      options,
      decl.checks,
      Lookup(registry.errorHandlers, decl.cls),
      decl.aliases,
      NormaliseGuilds(decl.guilds),
      registry.SubcommandsOf(decl.cls),
      Lookup(registry.helpGetters, decl.cls),
      decl.autoDefer,
      decl.ephemeral,
      Lookup(registry.checkExempts, decl.cls),
      decl.hidden,
      decl.inheritChecks);
  }
}
