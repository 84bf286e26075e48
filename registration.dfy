/**
 * Registration of attribute callbacks: two name-keyed, append-only stores
 * (adjusters and defaulters), filled through a decorator that takes an
 * explicit name or infers one from the function's own name.
 */
module Registration {
  import opened Wrappers

  /**
   * A registered callback: the function's `__name__` and its behaviour,
   * an opaque total function from attribute contents to contents.
   */
  datatype Callback = Callback(name: string, run: set<string> -> set<string>)

  /** The suffix stripped by `adjust_decorator`. */
  const AdjustSuffix: string := "_adjust_attributes"
  /** The suffix stripped by `default_decorator`. */
  const DefaultSuffix: string := "_default_attributes"

  /** Python's `s.removesuffix(suffix)`. */
  function RemoveSuffix(s: string, suffix: string): (r: string)
    ensures |r| <= |s| && r == s[..|r|]
  {
    if |suffix| <= |s| && s[|s| - |suffix|..] == suffix then s[..|s| - |suffix|] else s
  }

  /** Stripping a suffix undoes appending it, and leaves other names whole. */
  lemma RemoveSuffixInverse(prefix: string, s: string, suffix: string)
    ensures RemoveSuffix(prefix + suffix, suffix) == prefix
    ensures RemoveSuffix(s, suffix) == s || RemoveSuffix(s, suffix) + suffix == s
  {
    var t := prefix + suffix;
    assert t[|t| - |suffix|..] == suffix;
    assert t[..|t| - |suffix|] == prefix;
  }

  /**
   * The key `self.name or func.__name__.removesuffix(suffix)`: a non-empty
   * explicit name wins, otherwise the function's name minus the suffix.
   */
  function Key(explicit: Option<string>, funcName: string, suffix: string): (k: string)
    ensures explicit.Some? && explicit.value != "" ==> k == explicit.value
    ensures (explicit.None? || explicit.value == "") ==> |k| <= |funcName| && k == funcName[..|k|]
  {
    if explicit.Some? && explicit.value != "" then explicit.value else RemoveSuffix(funcName, suffix)
  }

  /** Which name a callback is filed under. */
  lemma KeyChoice(explicit: Option<string>, funcName: string, suffix: string)
    ensures explicit.Some? && explicit.value != "" ==> Key(explicit, funcName, suffix) == explicit.value
    ensures (explicit == None || explicit == Some("")) && |suffix| <= |funcName|
            && funcName[|funcName| - |suffix|..] == suffix ==>
              Key(explicit, funcName, suffix) + suffix == funcName
    ensures (explicit == None || explicit == Some("")) && !(|suffix| <= |funcName|
            && funcName[|funcName| - |suffix|..] == suffix) ==>
              Key(explicit, funcName, suffix) == funcName
  {
    if explicit == None || explicit == Some("") {
      if |suffix| <= |funcName| && funcName[|funcName| - |suffix|..] == suffix {
        assert funcName[..|funcName| - |suffix|] + suffix == funcName;
      }
    }
  }

  /**
   * Instances of the documented naming template `(something)_adjust_attributes`
   * and its `_default_attributes` counterpart, for a sample tag `eileen`.
   */
  lemma DocumentedKeys()
    ensures Key(None, "eileen_adjust_attributes", AdjustSuffix) == "eileen"
    ensures Key(None, "eileen_default_attributes", DefaultSuffix) == "eileen"
    ensures Key(None, "eileen_default_attributes", AdjustSuffix) == "eileen_default_attributes"
    ensures Key(Some("lucy"), "eileen_adjust_attributes", AdjustSuffix) == "lucy"
  {
    RemoveSuffixInverse("eileen", "eileen_adjust_attributes", AdjustSuffix);
    RemoveSuffixInverse("eileen", "eileen_default_attributes", DefaultSuffix);
    var s := "eileen_default_attributes";
    assert s[|s| - |AdjustSuffix|..][1] != AdjustSuffix[1];
  }

  /** The argument given to the decorator's constructor. */
  datatype DecoratorArg =
    | NoArg                      // `@adjust_decorator()`
    | NameArg(text: string)      // `@adjust_decorator("name")`
    | FuncArg(func: Callback)    // bare `@adjust_decorator`
    | OtherArg                   // anything else

  /** A decorator object: its one slot, the explicit name, if any. */
  datatype Decorator = Decorator(name: Option<string>)

  /**
   * One store of callbacks (`config.adjust_attributes` or
   * `config.default_attribute_callbacks`) with the suffix its decorator
   * class strips. A missing key reads as the empty list.
   */
  class Registry {
    const suffix: string
    var store: map<string, seq<Callback>>

    constructor (suffix: string)
      ensures this.suffix == suffix && store == map[]
    {
      this.suffix := suffix;
      store := map[];
    }

    /** The callbacks filed under `key`, in registration order. */
    function Entries(key: string): (r: seq<Callback>)
      reads this
      ensures key in store ==> r == store[key]
      ensures key !in store ==> r == []
    {
      if key in store then store[key] else []
    }

    /** `store[key].append(func)` on a dictionary that creates missing lists. */
    method Append(key: string, func: Callback)
      modifies this
      ensures store == old(store)[key := old(Entries(key)) + [func]]
      ensures Entries(key) == old(Entries(key)) + [func]
      ensures forall k :: k != key ==> Entries(k) == old(Entries(k))
    {
      store := store[key := Entries(key) + [func]];
    }

    /** `__call__(func)`: files `func` under the decorator's key and returns it. */
    method Call(d: Decorator, func: Callback) returns (r: Callback)
      modifies this
      ensures r == func
      ensures store == old(store)[Key(d.name, func.name, suffix) := old(Entries(Key(d.name, func.name, suffix))) + [func]]
    {
      Append(Key(d.name, func.name, suffix), func);
      r := func;
    }

    /**
     * `__init__(arg)`: a name (or none) is kept for later; a function is
     * registered at once under its inferred name; anything else is a `TypeError`.
     */
    method Decorate(arg: DecoratorArg) returns (r: Result<Decorator>)
      modifies this
      ensures arg.OtherArg? ==> r == Failure(TypeError) && store == old(store)
      ensures arg.NoArg? ==> r == Success(Decorator(None)) && store == old(store)
      ensures arg.NameArg? ==> r == Success(Decorator(Some(arg.text))) && store == old(store)
      ensures arg.FuncArg? ==> r == Success(Decorator(None))
      ensures arg.FuncArg? ==>
                store == old(store)[Key(None, arg.func.name, suffix) := old(Entries(Key(None, arg.func.name, suffix))) + [arg.func]]
    {
      match arg
      case NoArg =>
        r := Success(Decorator(None));
      case NameArg(text) =>
        r := Success(Decorator(Some(text)));
      case FuncArg(func) =>
        var d := Decorator(None);
        var _ := Call(d, func);
        r := Success(d);
      case OtherArg =>
        r := Failure(TypeError);
    }
  }

  /**
   * Three registrations under one name are kept in registration order, and a
   * rejected decorator argument leaves them as they were.
   */
  method RegistrationOrder(a: Callback, b: Callback, c: Callback)
    returns (entries: seq<Callback>, rejected: Result<Decorator>)
    ensures entries == [a, b, c]
    ensures rejected == Failure(TypeError)
  {
    var adjusters := new Registry(AdjustSuffix);
    var d := adjusters.Decorate(NameArg("eileen"));
    var _ := adjusters.Call(d.value, a);
    var _ := adjusters.Call(d.value, b);
    var _ := adjusters.Call(d.value, c);
    assert adjusters.Entries("eileen") == [a, b, c];
    rejected := adjusters.Decorate(OtherArg);
    entries := adjusters.Entries("eileen");
  }
}
