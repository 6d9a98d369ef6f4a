/**
 * The registry of placeholder classes (precise_bbcode/placeholder_pool.py): a dictionary from
 * placeholder names to `BBCodePlaceholder` subclasses, filled once by discovery and by explicit
 * registration.
 */
module PlaceholderPool {
  import opened Wrappers
  import opened Errors
  import opened Placeholders

  /**
   * What `register_placeholder` and `unregister_placeholder` are handed: a `BBCodePlaceholder`
   * subclass, or another class, with or without a `name` attribute.
   */
  datatype PlaceholderArg = BBCodePlaceholderClass(placeholder: Placeholder)
                          | NotAPlaceholderClass(nameAttr: Option<string>)

  /** `placeholder.name`; `None` when the class has no such attribute. */
  function NameOf(arg: PlaceholderArg): Option<string>
  {
    match arg
    case BBCodePlaceholderClass(p) => Some(p.name)
    case NotAPlaceholderClass(n) => n
  }

  type Pool = map<string, Placeholder>

  const NotAPlaceholder := "BBCode Placeholders must be subclasses of BBCodePlaceholder"

  /** `register_placeholder` on the pool `placeholders`: the pool it leaves, or the exception it raises. */
  function Register(placeholders: Pool, arg: PlaceholderArg): (r: Result<Pool, Error>)
    ensures r.Ok? <==> arg.BBCodePlaceholderClass? && arg.placeholder.name !in placeholders
    ensures arg.NotAPlaceholderClass? ==> r.Err? && r.error.ImproperlyConfigured?
    ensures arg.BBCodePlaceholderClass? && arg.placeholder.name in placeholders
            ==> r == Err(PlaceholderAlreadyRegistered(arg.placeholder.name))
    ensures r.Ok? ==> r.value.Keys == placeholders.Keys + {arg.placeholder.name}
                      && |r.value| == |placeholders| + 1
    ensures r.Ok? ==> r.value[arg.placeholder.name] == arg.placeholder
                      && forall n :: n in placeholders ==> r.value[n] == placeholders[n]
  {
    if !arg.BBCodePlaceholderClass? then Err(ImproperlyConfigured(NotAPlaceholder))
    else if arg.placeholder.name in placeholders then Err(PlaceholderAlreadyRegistered(arg.placeholder.name))
    else Ok(placeholders[arg.placeholder.name := arg.placeholder])
  }

  /** `unregister_placeholder` on the pool `placeholders`: the pool it leaves, or the exception it raises. */
  function Unregister(placeholders: Pool, arg: PlaceholderArg): (r: Result<Pool, Error>)
    ensures r.Ok? <==> NameOf(arg).Some? && NameOf(arg).value in placeholders
    ensures NameOf(arg).None? ==> r == Err(AttributeError)
    ensures NameOf(arg).Some? && NameOf(arg).value !in placeholders
            ==> r == Err(PlaceholderNotRegistered(NameOf(arg).value))
    ensures r.Ok? ==> r.value.Keys == placeholders.Keys - {NameOf(arg).value} && |r.value| == |placeholders| - 1
    ensures r.Ok? ==> forall n :: n in r.value ==> r.value[n] == placeholders[n]
  {
    match NameOf(arg)
    case None => Err(AttributeError)
    case Some(name) =>
      if name !in placeholders then Err(PlaceholderNotRegistered(name)) else Ok(placeholders - {name})
  }

  /**
   * The registrations the discovered `bbcode_placeholders` modules make, in order: the pool they
   * leave and the first exception, which stops the loading.
   */
  function RegisterAll(placeholders: Pool, found: seq<PlaceholderArg>): (Pool, Result<(), Error>)
    decreases |found|
  {
    if found == [] then (placeholders, Ok(()))
    else match Register(placeholders, found[0])
      case Err(e) => (placeholders, Err(e))
      case Ok(next) => RegisterAll(next, found[1..])
  }

  class PlaceholderPool {
    var placeholders: Pool
    var discovered: bool

    constructor()
      ensures placeholders == map[] && !discovered
    {
      placeholders := map[];
      discovered := false;
    }

    /**
     * `discover_placeholders`: loads the `bbcode_placeholders` modules, whose registrations are
     * `found`, the first time only.
     */
    method DiscoverPlaceholders(found: seq<PlaceholderArg>) returns (r: Result<(), Error>)
      modifies this
      ensures discovered
      ensures old(discovered) ==> placeholders == old(placeholders) && r == Ok(())
      ensures !old(discovered) ==> (placeholders, r) == RegisterAll(old(placeholders), found)
    {
      if discovered {
        return Ok(());
      }
      discovered := true;
      var i := 0;
      while i < |found|
        invariant 0 <= i <= |found| && discovered
        invariant RegisterAll(old(placeholders), found) == RegisterAll(placeholders, found[i..])
      {
        assert found[i..][1..] == found[i + 1..];
        var step := RegisterPlaceholder(found[i]);
        if step.Err? {
          return step;
        }
        i := i + 1;
      }
      r := Ok(());
    }

    /** `register_placeholder`: adds the placeholder under its name, or raises and leaves the pool as it was. */
    method RegisterPlaceholder(arg: PlaceholderArg) returns (r: Result<(), Error>)
      modifies this
      ensures discovered == old(discovered)
      ensures match Register(old(placeholders), arg)
        case Ok(next) => r == Ok(()) && placeholders == next
        case Err(e) => r == Err(e) && placeholders == old(placeholders)
    {
      if !arg.BBCodePlaceholderClass? {
        return Err(ImproperlyConfigured(NotAPlaceholder));
      }
      var name := arg.placeholder.name;
      if name in placeholders {
        return Err(PlaceholderAlreadyRegistered(name));
      }
      placeholders := placeholders[name := arg.placeholder];
      r := Ok(());
    }

    /** `unregister_placeholder`: removes the placeholder's name, or raises and leaves the pool as it was. */
    method UnregisterPlaceholder(arg: PlaceholderArg) returns (r: Result<(), Error>)
      modifies this
      ensures discovered == old(discovered)
      ensures match Unregister(old(placeholders), arg)
        case Ok(next) => r == Ok(()) && placeholders == next
        case Err(e) => r == Err(e) && placeholders == old(placeholders)
    {
      if NameOf(arg).None? {
        return Err(AttributeError);
      }
      var name := NameOf(arg).value;
      if name !in placeholders {
        return Err(PlaceholderNotRegistered(name));
      }
      placeholders := placeholders - {name};
      r := Ok(());
    }

    /** `get_placeholders`: discovers the placeholders, then hands out the registered classes. */
    method GetPlaceholders(found: seq<PlaceholderArg>) returns (r: Result<set<Placeholder>, Error>)
      modifies this
      ensures discovered
      ensures old(discovered) ==> placeholders == old(placeholders)
      ensures !old(discovered) ==> placeholders == RegisterAll(old(placeholders), found).0
      ensures r.Ok? <==> old(discovered) || RegisterAll(old(placeholders), found).1.Ok?
      ensures r.Ok? ==> r.value == placeholders.Values
    {
      var d := DiscoverPlaceholders(found);
      if d.Err? {
        return Err(d.error);
      }
      r := Ok(placeholders.Values);
    }
  }

  /** Unregistering a placeholder just registered gives the pool back. */
  lemma RegisterUnregister(placeholders: Pool, arg: PlaceholderArg)
    requires Register(placeholders, arg).Ok?
    ensures Unregister(Register(placeholders, arg).value, arg) == Ok(placeholders)
  {
    var next := Register(placeholders, arg).value;
    assert next - {arg.placeholder.name} == placeholders;
  }

  /** Registering again a placeholder just unregistered gives the pool back. */
  lemma UnregisterRegister(placeholders: Pool, p: Placeholder)
    requires p.name in placeholders && placeholders[p.name] == p
    ensures Unregister(placeholders, BBCodePlaceholderClass(p)).Ok?
    ensures Register(Unregister(placeholders, BBCodePlaceholderClass(p)).value, BBCodePlaceholderClass(p)) == Ok(placeholders)
  {
    var rest := Unregister(placeholders, BBCodePlaceholderClass(p)).value;
    assert rest[p.name := p] == placeholders;
  }

  /**
   * Loading only adds to the pool: the placeholders already registered stay, and a load that raises
   * no exception has registered every placeholder it found, under its name.
   */
  lemma {:induction false} RegisterAllKeeps(placeholders: Pool, found: seq<PlaceholderArg>)
    ensures forall n :: n in placeholders ==>
      n in RegisterAll(placeholders, found).0 && RegisterAll(placeholders, found).0[n] == placeholders[n]
    ensures RegisterAll(placeholders, found).1.Ok? ==>
      forall i :: 0 <= i < |found| ==>
        (found[i].BBCodePlaceholderClass? && found[i].placeholder.name in RegisterAll(placeholders, found).0
         && RegisterAll(placeholders, found).0[found[i].placeholder.name] == found[i].placeholder)
    decreases |found|
  {
    if found != [] {
      var step := Register(placeholders, found[0]);
      if step.Ok? {
        RegisterAllKeeps(step.value, found[1..]);
        assert forall i :: 1 <= i < |found| ==> found[i] == found[1..][i - 1];
      }
    }
  }
}
