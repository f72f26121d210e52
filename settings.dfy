/** settings.py: the plugin's settings, one object per process. The class
    attribute `_instance` holds the object; the first construction creates
    and initialises it, and every later construction returns it and ignores
    its arguments. */
module PluginSettings {
  import opened Protocol

  /** The arguments of `initialize`, named as in its signature. */
  datatype Options = Options(waitFor: PyValue, cookie: string, domain: string, mountRoot: string,
                             dropboxMount: bool, https: bool, insecure: bool)

  /** `initialize()` without arguments. */
  const Defaults: Options := Options(PyInt(0), "", "", "", false, true, false)

  /** `("https://" if https else "http://") + domain`. */
  function Url(https: bool, domain: string): (url: string)
    ensures |url| == |domain| + (if https then 8 else 7)
    ensures url[..4] == "http" && (url[4] == 's' <==> https)
    ensures url[|url| - |domain|..] == domain
  {
    (if https then "https://" else "http://") + domain
  }

  /** The scheme and the domain can be read back from the address. */
  lemma UrlInjective(h1: bool, d1: string, h2: bool, d2: string)
    requires Url(h1, d1) == Url(h2, d2)
    ensures h1 == h2 && d1 == d2
  {
    var u := Url(h1, d1);
    assert (u[4] == 's') == h1 && (u[4] == 's') == h2;
  }

  /** A `Settings` object. */
  class Settings {
    var waitFor: PyValue
    var cookie: string
    var domain: string
    var dropboxMount: bool
    var mountRoot: string
    var https: bool
    var insecure: bool
    var url: string

    /** The address always follows the scheme flag and the domain. */
    predicate Valid()
      reads this
    {
      url == Url(https, domain)
    }

    /** The options the object holds. */
    function Current(): Options
      reads this
    {
      Options(waitFor, cookie, domain, mountRoot, dropboxMount, https, insecure)
    }

    /** `object.__new__` followed by `initialize(o)`. */
    constructor (o: Options)
      ensures Current() == o && Valid()
    {
      waitFor, cookie, domain, dropboxMount := o.waitFor, o.cookie, o.domain, o.dropboxMount;
      mountRoot, https, insecure := o.mountRoot, o.https, o.insecure;
      url := Url(o.https, o.domain);
    }

    /** `initialize`: every attribute is overwritten and the address
        recomputed. */
    method Initialize(o: Options)
      modifies this
      ensures Current() == o && Valid()
    {
      waitFor, cookie, domain, dropboxMount := o.waitFor, o.cookie, o.domain, o.dropboxMount;
      mountRoot, https, insecure := o.mountRoot, o.https, o.insecure;
      url := Url(o.https, o.domain);
    }
  }

  /** The class object, with its `_instance` attribute. */
  class SettingsClass {
    var instance: Settings?

    /** Before any construction there is no instance. */
    constructor ()
      ensures instance == null
    {
      instance := null;
    }

    /** `Settings(o)`, i.e. `__new__`: the first call creates and
        initialises the object; later calls return it unchanged. */
    method New(o: Options) returns (s: Settings)
      modifies this
      ensures old(instance) == null ==> fresh(s) && s.Current() == o && s.Valid()
      ensures old(instance) != null ==> s == old(instance) && s.Current() == old(instance.Current())
      ensures instance == s
    {
      if instance == null {
        instance := new Settings(o);
      }
      s := instance;
    }

    /** `Settings._instance = None`: the next construction starts afresh. */
    method Clear()
      modifies this
      ensures instance == null
    {
      instance := null;
    }
  }

  /** The first construction without arguments, `Settings()`: no timeout
      rule beyond 0, empty cookie, domain and mount root, no Dropbox mount,
      HTTPS, certificate checks on, and the address `https://`. */
  method DefaultConstruction(c: SettingsClass) returns (s: Settings)
    requires c.instance == null
    modifies c
    ensures s.waitFor == PyInt(0) && s.cookie == "" && s.domain == "" && s.mountRoot == ""
    ensures !s.dropboxMount && s.https && !s.insecure
    ensures s.url == "https://" && s.Valid() && c.instance == s
  {
    s := c.New(Defaults);
  }

  /** Two constructions in a row give the same object, initialised by the
      first one's arguments. */
  method TwoConstructions(c: SettingsClass, first: Options, second: Options) returns (a: Settings, b: Settings)
    requires c.instance == null
    modifies c
    ensures a == b && b.Current() == first && b.Valid()
  {
    a := c.New(first);
    b := c.New(second);
  }
}
