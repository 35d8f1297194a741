/**
 * The add-on's preference helper: the defaults and their root, the type-directed lookup
 * `pref(key)` with its cached branch, the filter a preference observer applies before calling
 * back, and the loop that seeds the defaults into the host's default branch.
 *
 * The host preference service is modelled as two maps from full preference names to values:
 * the default branch and the user-set values, a user value taking precedence.
 */
module Prefs {
  import opened Wrappers

  /** A value the host preference service holds. */
  datatype PrefValue = BoolPref(b: bool) | IntPref(i: int) | CharPref(s: string)

  /** A property of the defaults object, as far as `typeof` tells them apart. */
  datatype JsValue = JsBoolean(b: bool) | JsNumber(n: int) | JsString(s: string) | JsOther

  /** The three typed getters and setters of a preference branch. */
  datatype PrefType = BoolType | IntType | CharType

  /** What `pref(key)` yields: a preference value, `null`, or an exception from the host getter. */
  datatype Fetched = Value(v: PrefValue) | Null | Thrown

  /** The host's preference store. */
  datatype Store = Store(defaultBranch: map<string, PrefValue>, userBranch: map<string, PrefValue>)
  {
    /** The value the host reports for `name`: the user value if set, else the default. */
    function Effective(name: string): (v: Option<PrefValue>)
      ensures name in userBranch ==> v == Some(userBranch[name])
      ensures name !in userBranch && name in defaultBranch ==> v == Some(defaultBranch[name])
      ensures v.None? <==> name !in userBranch && name !in defaultBranch
    {
      if name in userBranch then Some(userBranch[name])
      else if name in defaultBranch then Some(defaultBranch[name])
      else None
    }
  }

  /** `pref.root`. */
  const Root: string := "extensions.searchTabs."

  /** `pref.defaults`, in the order the object literal lists them. */
  const Defaults: seq<(string, JsValue)> :=
    [("checkInput", JsBoolean(false)), ("checkLocation", JsBoolean(true)), ("checkSelection", JsBoolean(false))]

  /** The notification topic the host sends for a changed preference. */
  const ChangedTopic: string := "nsPref:changed"

  /** The branch getter/setter `switch (typeof v)` selects; None for any other type. */
  function TypeOf(v: JsValue): (t: Option<PrefType>)
    ensures t.None? <==> v.JsOther?
    ensures v.JsBoolean? ==> t == Some(BoolType)
    ensures v.JsNumber? ==> t == Some(IntType)
    ensures v.JsString? ==> t == Some(CharType)
  {
    match v
    case JsBoolean(_) => Some(BoolType)
    case JsNumber(_) => Some(IntType)
    case JsString(_) => Some(CharType)
    case JsOther => None
  }

  function PrefTypeOf(p: PrefValue): PrefType {
    match p
    case BoolPref(_) => BoolType
    case IntPref(_) => IntType
    case CharPref(_) => CharType
  }

  /** The preference value a typed setter stores for a default; None when no setter applies. */
  function AsPref(v: JsValue): (p: Option<PrefValue>)
    ensures p.Some? <==> TypeOf(v).Some?
    ensures p.Some? ==> Some(PrefTypeOf(p.value)) == TypeOf(v)
    ensures v.JsBoolean? ==> p == Some(BoolPref(v.b))
    ensures v.JsNumber? ==> p == Some(IntPref(v.n))
    ensures v.JsString? ==> p == Some(CharPref(v.s))
  {
    match v
    case JsBoolean(b) => Some(BoolPref(b))
    case JsNumber(n) => Some(IntPref(n))
    case JsString(s) => Some(CharPref(s))
    case JsOther => None
  }

  predicate HasKey(defaults: seq<(string, JsValue)>, key: string) {
    exists i :: 0 <= i < |defaults| && defaults[i].0 == key
  }

  /** `defaults[key]`: the value listed for `key`, None (`undefined`) when it is not listed. */
  function DefaultOf(defaults: seq<(string, JsValue)>, key: string): (v: Option<JsValue>)
    ensures v.None? <==> !HasKey(defaults, key)
    ensures v.Some? ==> exists i :: 0 <= i < |defaults| && defaults[i] == (key, v.value)
  {
    if defaults == [] then None
    else if defaults[0].0 == key then Some(defaults[0].1)
    else
      var rest := DefaultOf(defaults[1..], key);
      assert HasKey(defaults, key) ==> defaults[0].0 == key || HasKey(defaults[1..], key) by {
        if HasKey(defaults, key) {
          var i :| 0 <= i < |defaults| && defaults[i].0 == key;
          assert i == 0 || defaults[1..][i - 1].0 == key;
        }
      }
      assert rest.Some? ==> exists i :: 0 <= i < |defaults| && defaults[i] == (key, rest.value) by {
        if rest.Some? {
          var i :| 0 <= i < |defaults[1..]| && defaults[1..][i] == (key, rest.value);
          assert defaults[i + 1] == (key, rest.value);
        }
      }
      rest
  }

  /** `branch.getBoolPref(name)` and its siblings: the value if it exists with that type, else an exception. */
  function Read(store: Store, t: PrefType, name: string): (r: Fetched)
    ensures r != Null
    ensures r.Value? <==> store.Effective(name).Some? && PrefTypeOf(store.Effective(name).value) == t
    ensures r.Value? ==> Some(r.v) == store.Effective(name)
  {
    match store.Effective(name)
    case None => Thrown
    case Some(p) => if PrefTypeOf(p) == t then Value(p) else Thrown
  }

  /**
   * `pref(key)` on a branch opened at `root`: the getter is chosen by the type of
   * `defaults[key]`, and a key without a default of a preference type gives `null`.
   */
  function Lookup(store: Store, defaults: seq<(string, JsValue)>, root: string, key: string): (r: Fetched)
    ensures r.Null? <==> DefaultOf(defaults, key).None? || DefaultOf(defaults, key).value.JsOther?
    ensures r.Value? ==>
      Some(r.v) == store.Effective(root + key) && Some(PrefTypeOf(r.v)) == TypeOf(DefaultOf(defaults, key).value)
    ensures r.Thrown? ==>
      DefaultOf(defaults, key).Some? && TypeOf(DefaultOf(defaults, key).value).Some? &&
      (store.Effective(root + key).None? ||
       Some(PrefTypeOf(store.Effective(root + key).value)) != TypeOf(DefaultOf(defaults, key).value))
  {
    match DefaultOf(defaults, key)
    case None => Null
    case Some(d) =>
      match TypeOf(d)
      case None => Null
      case Some(t) => Read(store, t, root + key)
  }

  /** `data.slice(n)`: the text after the first `n` characters, empty when there are fewer. */
  function Slice(data: string, n: nat): (r: string)
    ensures n <= |data| ==> data == data[..n] + r
    ensures |data| < n ==> r == ""
  {
    if n <= |data| then data[n..] else ""
  }

  /**
   * The filter inside `pref.observe(prefs, callback)`: the key the callback is called with
   * (at most one call per notification), or None when the notification is ignored.
   */
  function Notify(watched: seq<string>, root: string, topic: string, data: string): (call: Option<string>)
    ensures topic != ChangedTopic ==> call == None
    ensures call.Some? <==> topic == ChangedTopic && Slice(data, |root|) in watched
    ensures call.Some? ==> call.value == Slice(data, |root|)
    ensures call.Some? ==> call.value in watched
  {
    if topic != ChangedTopic then None
    else
      var key := Slice(data, |root|);
      if key !in watched then None else Some(key)
  }

  /** The host names a preference under the root by its full name; the observer calls back with the short key exactly when that key is watched. */
  lemma NotifyRoundTrip(watched: seq<string>, root: string, key: string)
    ensures Notify(watched, root, ChangedTopic, root + key) == if key in watched then Some(key) else None
  {
  }

  /** One step of the initialisation loop: the setter matching the default's type, or no write. */
  function SeedOne(branch: map<string, PrefValue>, root: string, entry: (string, JsValue)): (r: map<string, PrefValue>)
    ensures AsPref(entry.1).None? ==> r == branch
    ensures AsPref(entry.1).Some? ==> r == branch[root + entry.0 := AsPref(entry.1).value]
    ensures r.Keys == branch.Keys + (if AsPref(entry.1).Some? then {root + entry.0} else {})
    ensures forall name :: name in branch && name != root + entry.0 ==> name in r && r[name] == branch[name]
  {
    match AsPref(entry.1)
    case None => branch
    case Some(p) => branch[root + entry.0 := p]
  }

  /** The default branch after the initialisation loop has gone through `defaults` in order. */
  function Seeded(branch: map<string, PrefValue>, root: string, defaults: seq<(string, JsValue)>): (r: map<string, PrefValue>)
    ensures r.Keys == branch.Keys + Written(root, defaults)
  {
    if defaults == [] then branch
    else
      var n := |defaults| - 1;
      var before := Seeded(branch, root, defaults[..n]);
      WrittenExtends(root, defaults);
      SeedOne(before, root, defaults[n])
  }

  /** The names written by a run of defaults: those of all but the last, plus the last one's if typed. */
  lemma WrittenExtends(root: string, defaults: seq<(string, JsValue)>)
    requires defaults != []
    ensures var n := |defaults| - 1;
      Written(root, defaults) ==
        Written(root, defaults[..n]) + (if AsPref(defaults[n].1).Some? then {root + defaults[n].0} else {})
  {
    var n := |defaults| - 1;
    var init := defaults[..n];
    var extra: set<string> := if AsPref(defaults[n].1).Some? then {root + defaults[n].0} else {};
    forall name | name in Written(root, defaults) ensures name in Written(root, init) + extra {
      var i :| 0 <= i < |defaults| && AsPref(defaults[i].1).Some? && name == root + defaults[i].0;
      if i < n {
        assert init[i] == defaults[i];
      }
    }
    forall name | name in Written(root, init) ensures name in Written(root, defaults) {
      var i :| 0 <= i < |init| && AsPref(init[i].1).Some? && name == root + init[i].0;
      assert init[i] == defaults[i];
    }
  }

  /** The full names the initialisation loop writes: one per default of a preference type. */
  function Written(root: string, defaults: seq<(string, JsValue)>): set<string> {
    set i | 0 <= i < |defaults| && AsPref(defaults[i].1).Some? :: root + defaults[i].0
  }

  predicate DistinctKeys(defaults: seq<(string, JsValue)>) {
    forall i, j :: 0 <= i < j < |defaults| ==> defaults[i].0 != defaults[j].0
  }

  /**
   * Initialisation writes every default of a preference type under its full name with the
   * matching setter, and leaves every other name as it was.
   */
  lemma {:induction false} SeededSpec(branch: map<string, PrefValue>, root: string, defaults: seq<(string, JsValue)>)
    requires DistinctKeys(defaults)
    ensures forall i :: 0 <= i < |defaults| && AsPref(defaults[i].1).Some? ==>
      root + defaults[i].0 in Seeded(branch, root, defaults) &&
      Seeded(branch, root, defaults)[root + defaults[i].0] == AsPref(defaults[i].1).value
    ensures forall name :: name !in Written(root, defaults) ==>
      (name in Seeded(branch, root, defaults) <==> name in branch) &&
      (name in branch ==> Seeded(branch, root, defaults)[name] == branch[name])
  {
    SeededWrites(branch, root, defaults);
    SeededKeepsOthers(branch, root, defaults);
  }

  /** Every default of a preference type ends up stored under its full name. */
  lemma {:induction false} SeededWrites(branch: map<string, PrefValue>, root: string, defaults: seq<(string, JsValue)>)
    requires DistinctKeys(defaults)
    ensures forall i :: 0 <= i < |defaults| && AsPref(defaults[i].1).Some? ==>
      root + defaults[i].0 in Seeded(branch, root, defaults) &&
      Seeded(branch, root, defaults)[root + defaults[i].0] == AsPref(defaults[i].1).value
  {
    if defaults != [] {
      var n := |defaults| - 1;
      var init := defaults[..n];
      SeededWrites(branch, root, init);
      var before := Seeded(branch, root, init);
      var after := Seeded(branch, root, defaults);
      assert after == SeedOne(before, root, defaults[n]);
      forall i | 0 <= i < n && AsPref(defaults[i].1).Some?
        ensures root + defaults[i].0 in after && after[root + defaults[i].0] == AsPref(defaults[i].1).value
      {
        assert init[i] == defaults[i];
        var k := root + defaults[i].0;
        assert k in before && before[k] == AsPref(defaults[i].1).value;
        PrefixInjective(root, defaults[i].0, defaults[n].0);
        assert k != root + defaults[n].0;
      }
    }
  }

  /** A name the loop does not write keeps its presence and its value. */
  lemma {:induction false} SeededKeepsOthers(branch: map<string, PrefValue>, root: string, defaults: seq<(string, JsValue)>)
    ensures forall name :: name !in Written(root, defaults) ==>
      (name in Seeded(branch, root, defaults) <==> name in branch) &&
      (name in branch ==> Seeded(branch, root, defaults)[name] == branch[name])
  {
    if defaults != [] {
      var n := |defaults| - 1;
      SeededKeepsOthers(branch, root, defaults[..n]);
      WrittenExtends(root, defaults);
    }
  }

  /** Distinct keys under one root have distinct full names. */
  lemma PrefixInjective(root: string, a: string, b: string)
    ensures root + a == root + b ==> a == b
  {
    if root + a == root + b {
      assert (root + a)[|root|..] == a;
      assert (root + b)[|root|..] == b;
    }
  }

  /** The host's preference service; the initialisation loop writes into its default branch. */
  class PrefService {
    var defaultBranch: map<string, PrefValue>
    var userBranch: map<string, PrefValue>

    constructor (defaultBranch: map<string, PrefValue>, userBranch: map<string, PrefValue>)
      ensures this.defaultBranch == defaultBranch && this.userBranch == userBranch
    {
      this.defaultBranch := defaultBranch;
      this.userBranch := userBranch;
    }

    function State(): (s: Store)
      reads this
      ensures s.defaultBranch == defaultBranch && s.userBranch == userBranch
    {
      Store(defaultBranch, userBranch)
    }
  }

  /**
   * The initialisation loop: for each default in order, the setter matching its type writes it
   * into the default branch under `root`; other types are skipped. User values are untouched.
   */
  method InitDefaults(host: PrefService, root: string, defaults: seq<(string, JsValue)>)
    modifies host`defaultBranch
    ensures host.defaultBranch == Seeded(old(host.defaultBranch), root, defaults)
  {
    for i := 0 to |defaults|
      invariant host.defaultBranch == Seeded(old(host.defaultBranch), root, defaults[..i])
    {
      var (key, val) := defaults[i];
      match val {
        case JsBoolean(b) => host.defaultBranch := host.defaultBranch[root + key := BoolPref(b)];
        case JsNumber(n) => host.defaultBranch := host.defaultBranch[root + key := IntPref(n)];
        case JsString(s) => host.defaultBranch := host.defaultBranch[root + key := CharPref(s)];
        case JsOther =>
      }
      assert defaults[..i + 1][..i] == defaults[..i];
    }
    assert defaults[..|defaults|] == defaults;
  }

  /** The `pref` function object: its cached branch, its root and its defaults. */
  class PrefFunction {
    /** `pref.branch`: None until the first call, then the branch opened at the root. */
    var branch: Option<string>
    const root: string
    const defaults: seq<(string, JsValue)>
    /** How many times the host was asked for the branch. */
    ghost var branchFetches: nat

    /** The branch has been fetched at most once, and only ever at the root. */
    ghost predicate Valid()
      reads this
    {
      branchFetches == (if branch.None? then 0 else 1) && (branch.Some? ==> branch.value == root)
    }

    constructor ()
      ensures Valid()
      ensures branch == None && root == Root && defaults == Defaults
    {
      branch := None;
      root := Root;
      defaults := Defaults;
      branchFetches := 0;
    }

    /**
     * `pref(key)`: fetch the branch on the first call only and reuse it afterwards, then read
     * `key` with the getter the type of its default selects.
     */
    method Get(host: PrefService, key: string) returns (r: Fetched)
      requires Valid()
      modifies this`branch, this`branchFetches
      ensures Valid() && branch == Some(root) && branchFetches == 1
      ensures old(branch).Some? ==> branchFetches == old(branchFetches)
      ensures r == Lookup(host.State(), defaults, root, key)
    {
      if branch == None {
        branch := Some(root);
        branchFetches := branchFetches + 1;
      }
      var b := branch.value;
      match DefaultOf(defaults, key) {
        case None => r := Null;
        case Some(d) =>
          match TypeOf(d) {
            case None => r := Null;
            case Some(t) => r := Read(host.State(), t, b + key);
          }
      }
    }
  }

  /** The defaults are exactly the three check flags, each a boolean. */
  lemma DefaultsAreTheCheckFlags(key: string)
    ensures DefaultOf(Defaults, key).Some? <==> key == "checkInput" || key == "checkLocation" || key == "checkSelection"
    ensures DefaultOf(Defaults, key) == Some(JsBoolean(true)) <==> key == "checkLocation"
    ensures DefaultOf(Defaults, key).Some? ==> DefaultOf(Defaults, key).value.JsBoolean?
  {
  }

  /**
   * After initialisation, with no user values, `pref(key)` gives each flag's default and
   * `null` for every other key.
   */
  lemma {:induction false} FreshProfileLookup(branch: map<string, PrefValue>, key: string)
    ensures var store := Store(Seeded(branch, Root, Defaults), map[]);
      Lookup(store, Defaults, Root, key) ==
        if key == "checkLocation" then Value(BoolPref(true))
        else if key == "checkInput" || key == "checkSelection" then Value(BoolPref(false))
        else Null
  {
    DefaultsAreTheCheckFlags(key);
    var d := DefaultOf(Defaults, key);
    if d.Some? {
      var seeded := Seeded(branch, Root, Defaults);
      assert DistinctKeys(Defaults);
      SeededSpec(branch, Root, Defaults);
      var i :| 0 <= i < |Defaults| && Defaults[i] == (key, d.value);
      var store := Store(seeded, map[]);
      assert store.Effective(Root + key) == Some(BoolPref(d.value.b));
    }
  }
}
