/**
 * The registry of tag classes (precise_bbcode/tag_pool.py): a dictionary from tag names to
 * `BBCodeTag` subclasses, filled once by discovery and by explicit registration.
 */
module TagPool {
  import opened Wrappers
  import opened Errors
  import opened Tags

  /**
   * What `register_tag` and `unregister_tag` are handed: a `BBCodeTag` subclass, or another class,
   * with or without a `name` attribute.
   */
  datatype TagArg = BBCodeTagClass(tag: TagClass) | NotATagClass(nameAttr: Option<string>)

  /** `tag.name`; `None` when the class has no such attribute. */
  function NameOf(arg: TagArg): Option<string>
  {
    match arg
    case BBCodeTagClass(tag) => Some(tag.name)
    case NotATagClass(n) => n
  }

  /**
   * The database side of registration: the names of the tags stored as `BBCodeTag` rows and the
   * `BBCODE_ALLOW_CUSTOM_TAGS` setting.
   */
  datatype Store = Store(storedNames: set<string>, allowCustomTags: bool)

  type Pool = map<string, TagClass>

  const NotATag := "BBCode Tags must be subclasses of BBCodeTag"

  /** `register_tag` on the pool `tags`: the pool it leaves, or the exception it raises. */
  function Register(tags: Pool, arg: TagArg, db: Store): (r: Result<Pool, Error>)
    ensures r.Ok? <==> arg.BBCodeTagClass? && arg.tag.name !in tags
                       && !(arg.tag.name in db.storedNames && db.allowCustomTags)
    ensures arg.NotATagClass? ==> r.Err? && r.error.ImproperlyConfigured?
    ensures arg.BBCodeTagClass? && arg.tag.name in tags ==> r == Err(TagAlreadyRegistered(arg.tag.name))
    ensures arg.BBCodeTagClass? && arg.tag.name !in tags && arg.tag.name in db.storedNames && db.allowCustomTags
            ==> r == Err(TagAlreadyCreated(arg.tag.name))
    ensures r.Ok? ==> r.value.Keys == tags.Keys + {arg.tag.name} && |r.value| == |tags| + 1
    ensures r.Ok? ==> r.value[arg.tag.name] == arg.tag && forall n :: n in tags ==> r.value[n] == tags[n]
  {
    if !arg.BBCodeTagClass? then Err(ImproperlyConfigured(NotATag))
    else if arg.tag.name in tags then Err(TagAlreadyRegistered(arg.tag.name))
    else if arg.tag.name in db.storedNames && db.allowCustomTags then Err(TagAlreadyCreated(arg.tag.name))
    else Ok(tags[arg.tag.name := arg.tag])
  }

  /** `unregister_tag` on the pool `tags`: the pool it leaves, or the exception it raises. */
  function Unregister(tags: Pool, arg: TagArg): (r: Result<Pool, Error>)
    ensures r.Ok? <==> NameOf(arg).Some? && NameOf(arg).value in tags
    ensures NameOf(arg).None? ==> r == Err(AttributeError)
    ensures NameOf(arg).Some? && NameOf(arg).value !in tags ==> r == Err(TagNotRegistered(NameOf(arg).value))
    ensures r.Ok? ==> r.value.Keys == tags.Keys - {NameOf(arg).value} && |r.value| == |tags| - 1
    ensures r.Ok? ==> forall n :: n in r.value ==> r.value[n] == tags[n]
  {
    match NameOf(arg)
    case None => Err(AttributeError)
    case Some(name) =>
      if name !in tags then Err(TagNotRegistered(name)) else Ok(tags - {name})
  }

  /**
   * The registrations the discovered `bbcode_tags` modules make, in order: the pool they leave and
   * the first exception, which stops the loading.
   */
  function RegisterAll(tags: Pool, found: seq<TagArg>, db: Store): (Pool, Result<(), Error>)
    decreases |found|
  {
    if found == [] then (tags, Ok(()))
    else match Register(tags, found[0], db)
      case Err(e) => (tags, Err(e))
      case Ok(next) => RegisterAll(next, found[1..], db)
  }

  class TagPool {
    var tags: Pool
    var discovered: bool

    constructor()
      ensures tags == map[] && !discovered
    {
      tags := map[];
      discovered := false;
    }

    /** `discover_tags`: loads the `bbcode_tags` modules, whose registrations are `found`, the first time only. */
    method DiscoverTags(found: seq<TagArg>, db: Store) returns (r: Result<(), Error>)
      modifies this
      ensures discovered
      ensures old(discovered) ==> tags == old(tags) && r == Ok(())
      ensures !old(discovered) ==> (tags, r) == RegisterAll(old(tags), found, db)
    {
      if discovered {
        return Ok(());
      }
      discovered := true;
      var i := 0;
      while i < |found|
        invariant 0 <= i <= |found| && discovered
        invariant RegisterAll(old(tags), found, db) == RegisterAll(tags, found[i..], db)
      {
        assert found[i..][1..] == found[i + 1..];
        var step := RegisterTag(found[i], db);
        if step.Err? {
          return step;
        }
        i := i + 1;
      }
      r := Ok(());
    }

    /** `register_tag`: adds the tag under its name, or raises and leaves the pool as it was. */
    method RegisterTag(arg: TagArg, db: Store) returns (r: Result<(), Error>)
      modifies this
      ensures discovered == old(discovered)
      ensures match Register(old(tags), arg, db)
        case Ok(next) => r == Ok(()) && tags == next
        case Err(e) => r == Err(e) && tags == old(tags)
    {
      if !arg.BBCodeTagClass? {
        return Err(ImproperlyConfigured(NotATag));
      }
      var name := arg.tag.name;
      if name in tags {
        return Err(TagAlreadyRegistered(name));
      }
      if name in db.storedNames && db.allowCustomTags {
        return Err(TagAlreadyCreated(name));
      }
      tags := tags[name := arg.tag];
      r := Ok(());
    }

    /** `unregister_tag`: removes the tag's name, or raises and leaves the pool as it was. */
    method UnregisterTag(arg: TagArg) returns (r: Result<(), Error>)
      modifies this
      ensures discovered == old(discovered)
      ensures match Unregister(old(tags), arg)
        case Ok(next) => r == Ok(()) && tags == next
        case Err(e) => r == Err(e) && tags == old(tags)
    {
      if NameOf(arg).None? {
        return Err(AttributeError);
      }
      var name := NameOf(arg).value;
      if name !in tags {
        return Err(TagNotRegistered(name));
      }
      tags := tags - {name};
      r := Ok(());
    }

    /** `get_tags`: discovers the tags, then hands out the registered classes. */
    method GetTags(found: seq<TagArg>, db: Store) returns (r: Result<set<TagClass>, Error>)
      modifies this
      ensures discovered
      ensures old(discovered) ==> tags == old(tags)
      ensures !old(discovered) ==> tags == RegisterAll(old(tags), found, db).0
      ensures r.Ok? <==> old(discovered) || RegisterAll(old(tags), found, db).1.Ok?
      ensures r.Ok? ==> r.value == tags.Values
    {
      var d := DiscoverTags(found, db);
      if d.Err? {
        return Err(d.error);
      }
      r := Ok(tags.Values);
    }
  }

  /** Unregistering a tag just registered gives the pool back. */
  lemma RegisterUnregister(tags: Pool, arg: TagArg, db: Store)
    requires Register(tags, arg, db).Ok?
    ensures Unregister(Register(tags, arg, db).value, arg) == Ok(tags)
  {
    var next := Register(tags, arg, db).value;
    assert next - {arg.tag.name} == tags;
  }

  /** Registering again a tag just unregistered gives the pool back, unless the database now holds its name. */
  lemma UnregisterRegister(tags: Pool, t: TagClass, db: Store)
    requires t.name in tags && tags[t.name] == t
    requires !(t.name in db.storedNames && db.allowCustomTags)
    ensures Unregister(tags, BBCodeTagClass(t)).Ok?
    ensures Register(Unregister(tags, BBCodeTagClass(t)).value, BBCodeTagClass(t), db) == Ok(tags)
  {
    var rest := Unregister(tags, BBCodeTagClass(t)).value;
    assert rest[t.name := t] == tags;
  }

  /** A name cannot be registered twice, whatever the database holds. */
  lemma RegisterTwice(tags: Pool, arg: TagArg, db1: Store, db2: Store)
    requires Register(tags, arg, db1).Ok?
    ensures Register(Register(tags, arg, db1).value, arg, db2) == Err(TagAlreadyRegistered(arg.tag.name))
  {
  }

  /**
   * Loading only adds to the pool: the tags already registered stay, and a load that raises no
   * exception has registered every tag it found, under its name.
   */
  lemma {:induction false} RegisterAllKeeps(tags: Pool, found: seq<TagArg>, db: Store)
    ensures forall n :: n in tags ==> n in RegisterAll(tags, found, db).0 && RegisterAll(tags, found, db).0[n] == tags[n]
    ensures RegisterAll(tags, found, db).1.Ok? ==>
      forall i :: 0 <= i < |found| ==>
        (found[i].BBCodeTagClass? && found[i].tag.name in RegisterAll(tags, found, db).0
         && RegisterAll(tags, found, db).0[found[i].tag.name] == found[i].tag)
    decreases |found|
  {
    if found != [] {
      var step := Register(tags, found[0], db);
      if step.Ok? {
        RegisterAllKeeps(step.value, found[1..], db);
        assert forall i :: 1 <= i < |found| ==> found[i] == found[1..][i - 1];
      }
    }
  }
}
