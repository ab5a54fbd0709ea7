/**
 * The configuration of src/conf.rs: what the user may write in `Herbie.toml`
 * (`UxConf`, every field optional) and the settings the lint runs with
 * (`Conf`), with the defaults filled in.
 */
module Conf {
  import opened Wrappers

  /** `u32`. */
  type U32 = n: int | 0 <= n < 0x1_0000_0000

  /** `DEFAULT_HERBIE_SEED`. */
  const DefaultHerbieSeed: string := "#(1461197085 2376054483 1553562171 1611329376 2497620867 2308122621)"

  /** `DEFAULT_DB_PATH`. */
  const DefaultDbPath: string := "Herbie.db"

  /** `DEFAULT_TIMEOUT`, in seconds. */
  const DefaultTimeout: U32 := 120

  /** `UxConf`: the settings as read from the file. */
  datatype UxConf = UxConf(dbPath: Option<string>, herbieSeed: Option<string>, timeout: Option<U32>, useHerbie: Option<bool>)

  /** `UseHerbieConf`: call the oracle when found, never, or always (failing when it is missing). */
  datatype UseHerbieConf = Default | No | Yes

  /** `Conf`; a `timeout` of `None` lets the oracle run without a bound. */
  datatype Conf = Conf(dbPath: string, herbieSeed: string, timeout: Option<U32>, useHerbie: UseHerbieConf)

  /** `Conf::default()`. */
  function DefaultConf(): (c: Conf)
    ensures c == FromUx(UxConf(None, None, None, None))
  {
    Conf(DefaultDbPath, DefaultHerbieSeed, Some(DefaultTimeout), Default)
  }

  /** The `use_herbie` closure: `true` is `Yes`, `false` is `No`. */
  function UseHerbieOf(u: Option<bool>): (r: UseHerbieConf)
    ensures r == Default <==> u.None?
    ensures r == Yes <==> u == Some(true)
    ensures r == No <==> u == Some(false)
  {
    match u
    case None => Default
    case Some(b) => if b then Yes else No
  }

  /** The `timeout` closure: absent is the default, `0` is unbounded. */
  function TimeoutOf(t: Option<U32>): (r: Option<U32>)
    ensures r != Some(0)
    ensures t.None? ==> r == Some(DefaultTimeout)
    ensures t == Some(0) ==> r.None?
    ensures t.Some? && t.value > 0 ==> r == t
  {
    match t
    case None => Some(DefaultTimeout)
    case Some(n) => if n == 0 then None else Some(n)
  }

  /**
   * `From<UxConf> for Conf`: a given setting is kept, an absent one
   * defaulted. A file that spells out the path, the seed and the timeout
   * is recovered from the settings it converts to.
   */
  function FromUx(ux: UxConf): (c: Conf)
    ensures c.dbPath == (if ux.dbPath.Some? then ux.dbPath.value else DefaultDbPath)
    ensures c.herbieSeed == (if ux.herbieSeed.Some? then ux.herbieSeed.value else DefaultHerbieSeed)
    ensures c.timeout == TimeoutOf(ux.timeout) && c.useHerbie == UseHerbieOf(ux.useHerbie)
    ensures Reachable(c)
    ensures ux.dbPath.Some? && ux.herbieSeed.Some? && ux.timeout.Some? ==> ToUx(c) == ux
  {
    Conf(
      match ux.dbPath case None => DefaultDbPath case Some(p) => p,
      match ux.herbieSeed case None => DefaultHerbieSeed case Some(s) => s,
      TimeoutOf(ux.timeout),
      UseHerbieOf(ux.useHerbie))
  }

  /** The settings a conversion can produce: a bound, when there is one, is not zero. */
  predicate Reachable(c: Conf)
  {
    c.timeout != Some(0)
  }

  /** A file that spells every setting out, except `use_herbie` when it is the default. */
  function ToUx(c: Conf): (ux: UxConf)
  {
    UxConf(
      Some(c.dbPath),
      Some(c.herbieSeed),
      Some(if c.timeout.Some? then c.timeout.value else 0),
      match c.useHerbie case Default => None case Yes => Some(true) case No => Some(false))
  }

  /** Every conversion is reachable: the timeout is never `Some(0)`. */
  lemma FromUxReachable(ux: UxConf)
    ensures Reachable(FromUx(ux))
  {
  }

  /** Every reachable setting comes from some file: the conversion is onto. */
  lemma FromUxOnto(c: Conf)
    requires Reachable(c)
    ensures FromUx(ToUx(c)) == c
  {
  }

  /** `timeout = 0` and a missing `timeout` differ: the first is unbounded, the second two minutes. */
  lemma ZeroIsNotMissing(ux: UxConf)
    ensures FromUx(ux.(timeout := Some(0))).timeout == None
    ensures FromUx(ux.(timeout := None)).timeout == Some(120)
  {
  }

  /** Writing out the default path, seed and timeout gives the default settings. */
  lemma ExplicitDefaults()
    ensures FromUx(UxConf(Some("Herbie.db"), Some(DefaultHerbieSeed), Some(120), None)) == DefaultConf()
  {
  }
}
