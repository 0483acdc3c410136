/** The storage module of the site (`OneyStorage`): JSON values kept under
    fixed keys in the browser's `localStorage` and `sessionStorage`, the
    user profile with its defaults, the history of recent calculations,
    preferences, and the application of URL parameters. The two storage areas
    are fields of a `Store`; a clock reading and `Date.now()` are parameters. */
module Storage {
  import opened Wrappers
  import opened Strings
  import opened JsValues
  import Merging
  import opened UrlParams

  const UserProfileKey := "oney_user_profile"
  const AuthKey := "oney_auth"
  const PreferencesKey := "oney_preferences"
  const RecentCalcsKey := "oney_recent_calculations"
  const SessionKey := "oney_session"

  /** Every key of the module (`Object.values(KEYS)`). */
  const AllKeys: seq<string> := [UserProfileKey, AuthKey, PreferencesKey, RecentCalcsKey, SessionKey]

  /** The most calculations the history keeps after a save. */
  const HistoryLimit := 10

  /** What a storage area holds under a key: the text `JSON.stringify` wrote,
      kept as the value `JSON.parse` reads back, or text that does not parse
      (`setItem(key, undefined)` stores `"undefined"`). */
  datatype Item = Stored(value: Value) | Unparsable

  type Area = map<string, Item>

  /** `JSON.stringify(value)` as stored. */
  function Serialize(v: Value): (item: Item)
    ensures item.Unparsable? <==> v.Undefined?
    ensures item.Stored? ==> item.value == Jsonify(v) && JsonSafe(item.value)
  {
    if v.Undefined? then Unparsable
    else
      JsonifySafe(v);
      Stored(Jsonify(v))
  }

  /** `get(key, defaultValue)`: the parsed item, or the default when the key
      is absent or its text does not parse. */
  function Read(area: Area, key: string, default: Value): (r: Value)
    ensures key !in area ==> r == default
    ensures WellFormed(area) && JsonSafe(default) ==> JsonSafe(r)
  {
    if key in area && area[key].Stored? then area[key].value else default
  }

  /** The area after `set(key, value)`: an area that refuses the write (the
      `catch` of a full quota) keeps what it had. */
  function Written(area: Area, writable: bool, key: string, value: Value): Area {
    if writable then area[key := Serialize(value)] else area
  }

  /** Everything stored parses back to a value JSON represents exactly. */
  predicate WellFormed(area: Area) {
    forall k :: k in area && area[k].Stored? ==> JsonSafe(area[k].value)
  }

  /** `get` after a successful `set` gives the value back through the JSON
      round trip (the value itself when JSON represents it), or the default
      for `undefined`; other keys read as before. */
  lemma {:induction false} ReadWritten(area: Area, writable: bool, key: string, value: Value, default: Value, other: string)
    ensures writable ==> Read(Written(area, writable, key, value), key, default) ==
                         if value.Undefined? then default else Jsonify(value)
    ensures writable && JsonSafe(value) ==> Read(Written(area, writable, key, value), key, default) == value
    ensures other != key ==> Read(Written(area, writable, key, value), other, default) == Read(area, other, default)
  {
    if JsonSafe(value) {
      JsonSafeRoundTrip(value);
    }
  }

  // ---------------------------------------------------------------------
  // Profile
  // ---------------------------------------------------------------------

  /** The default profile schema. */
  const DefaultProfile: Value := Obj(map[
    "version" := Str("1.0.0"),
    "lastUpdated" := Null,
    "personal" := Obj(map["name" := Str(""), "email" := Str(""), "phone" := Str("")]),
    "income" := Obj(map["salary" := Num(0.0), "rental" := Num(0.0), "business" := Num(0.0), "other" := Num(0.0)]),
    "expenses" := Obj(map["living" := Num(0.0), "existing_debt" := Num(0.0), "other" := Num(0.0)]),
    "property" := Obj(map["value" := Num(0.0), "existing_debt" := Num(0.0), "state" := Str("NSW"), "type" := Str("residential")]),
    "business" := Obj(map["name" := Str(""), "industry" := Str(""), "abn" := Str(""),
                          "revenue" := Num(0.0), "ebitda" := Num(0.0), "ebit" := Num(0.0)]),
    "preferences" := Obj(map["currency" := Str("AUD"), "remember_inputs" := Bool(true)])
  ])

  /** `obj.lastUpdated = now`. */
  function Stamped(v: Value, now: string): (r: Value)
    requires v.Obj?
    ensures r.Obj? && r.props.Keys == v.props.Keys + {"lastUpdated"}
  {
    Obj(v.props["lastUpdated" := Str(now)])
  }

  /** A copy of the defaults stamped with the time it was created. */
  function FreshProfile(now: string): (p: Value)
    ensures p.Obj?
  {
    Stamped(Obj(OwnProps(DefaultProfile)), now)
  }

  function StoredProfile(area: Area): Value {
    Read(area, UserProfileKey, Null)
  }

  /** What `getProfile` returns: the stored profile when it is truthy, else
      a fresh default one. */
  function ProfileOf(area: Area, now: string): (p: Value)
    ensures Truthy(p)
    ensures Truthy(StoredProfile(area)) ==> p == StoredProfile(area)
  {
    if Truthy(StoredProfile(area)) then StoredProfile(area) else FreshProfile(now)
  }

  /** The area after `getProfile`: a fresh profile is saved, a stored one is
      left alone. */
  function ProfileArea(area: Area, writable: bool, now: string): Area {
    if Truthy(StoredProfile(area)) then area else Written(area, writable, UserProfileKey, FreshProfile(now))
  }

  /** Once `getProfile` has run on a writable area, later calls return what
      it returned, through the JSON round trip, and write nothing more. */
  lemma {:induction false} ProfilePersists(area: Area, now: string, later: string)
    requires WellFormed(area)
    ensures ProfileOf(ProfileArea(area, true, now), later) == Jsonify(ProfileOf(area, now))
    ensures ProfileArea(ProfileArea(area, true, now), true, later) == ProfileArea(area, true, now)
  {
    if Truthy(StoredProfile(area)) {
      JsonSafeRoundTrip(StoredProfile(area));
    } else {
      var initial := FreshProfile(now);
      assert StoredProfile(ProfileArea(area, true, now)) == Jsonify(initial);
    }
  }

  /** `deepMerge(getProfile(), updates)` stamped, or `None` where the merge
      throws a `TypeError`. */
  function UpdatedProfile(area: Area, now: string, updates: Value): Option<Value> {
    var p := ProfileOf(area, now);
    if Merging.Throws(p, updates) then None else Some(Stamped(Merging.Merge(p, updates), now))
  }

  /** `updateProfile` throws exactly when the stored profile is truthy but not
      an object and an update is itself an object. */
  lemma {:induction false} UpdatedProfileThrows(area: Area, now: string, updates: Value)
    ensures UpdatedProfile(area, now, updates).None? <==>
            Truthy(StoredProfile(area)) && !IsObject(StoredProfile(area)) &&
            exists j :: j in OwnProps(updates) && IsObject(OwnProps(updates)[j])
  {
    if !Truthy(StoredProfile(area)) {
      assert IsObject(FreshProfile(now));
    }
  }

  /** The profile `updateProfile` saves holds the keys of the profile and of
      the updates, merged as `deepMerge` does, and the new time stamp. */
  lemma {:induction false} UpdatedProfileFields(area: Area, now: string, updates: Value, k: string)
    requires UpdatedProfile(area, now, updates).Some?
    ensures var p, r := ProfileOf(area, now), UpdatedProfile(area, now, updates).value;
            r.props["lastUpdated"] == Str(now) &&
            (k in r.props <==> k in OwnProps(p) || k in OwnProps(updates) || k == "lastUpdated") &&
            (k != "lastUpdated" && k in OwnProps(updates) ==>
               r.props[k] == Merging.MergedAt(p, updates, k)) &&
            (k != "lastUpdated" && k !in OwnProps(updates) && k in OwnProps(p) ==>
               r.props[k] == OwnProps(p)[k])
  {
    var p := ProfileOf(area, now);
    Merging.MergeAt(p, updates, k);
  }

  /** `profile[section]` is truthy, so `updateSection` writes. */
  predicate SectionPresent(p: Value, section: string) {
    p.Obj? && section in p.props && Truthy(p.props[section])
  }

  /** The profile after `updateSection`: the section becomes the section
      spread with the data and the profile is stamped; a missing or falsy
      section leaves the profile as it is. */
  function SectionUpdated(p: Value, section: string, data: Value, now: string): Value {
    if SectionPresent(p, section) then Stamped(Obj(p.props[section := Spread(p.props[section], data)]), now)
    else p
  }

  /** `updateSection` touches only that section and the time stamp, and the
      section keeps its own fields under the new data. */
  lemma {:induction false} SectionUpdatedOnly(p: Value, section: string, data: Value, now: string, k: string)
    requires p.Obj? && section != "lastUpdated"
    ensures !SectionPresent(p, section) ==> SectionUpdated(p, section, data, now) == p
    ensures SectionPresent(p, section) ==>
            var r := SectionUpdated(p, section, data, now);
            r.props["lastUpdated"] == Str(now) &&
            r.props[section].props.Keys == OwnProps(p.props[section]).Keys + OwnProps(data).Keys &&
            (k in OwnProps(data) ==> r.props[section].props[k] == OwnProps(data)[k]) &&
            (k in OwnProps(p.props[section]) && k !in OwnProps(data) ==>
               r.props[section].props[k] == OwnProps(p.props[section])[k]) &&
            (k != section && k != "lastUpdated" ==> (k in r.props <==> k in p.props)) &&
            (k != section && k != "lastUpdated" && k in p.props ==> r.props[k] == p.props[k])
  {
  }

  // ---------------------------------------------------------------------
  // Recent calculations
  // ---------------------------------------------------------------------

  /** The record `saveCalculation` builds. */
  function NewCalc(toolId: Value, data: Value, id: int, now: string): Value {
    Obj(map["id" := Num(id as real), "tool" := toolId, "timestamp" := Str(now), "data" := data])
  }

  /** `calcs.unshift(c)` followed by one `pop` when the history is then
      longer than the limit. */
  function Pushed(history: seq<Value>, c: Value): seq<Value> {
    var n := [c] + history;
    if |n| > HistoryLimit then n[..|n| - 1] else n
  }

  /** The new record is first, the older ones follow in their order, and
      only the oldest one is dropped, only when the history was full; a
      history within the limit stays within it. */
  lemma {:induction false} PushedShape(history: seq<Value>, c: Value)
    ensures var r := Pushed(history, c);
            |r| == (if |history| >= HistoryLimit then |history| else |history| + 1) &&
            r[0] == c && r[1..] == history[..|r| - 1] &&
            (|history| <= HistoryLimit ==> |r| <= HistoryLimit)
  {
    var n := [c] + history;
    assert n[1..] == history;
    if |n| > HistoryLimit {
      assert n[..|n| - 1][1..] == history[..|n| - 2];
    }
  }

  /** `c.tool` for an element of the history: a `TypeError` (`None`) for
      `null` and `undefined`, `undefined` where there is no such property. */
  function ToolOf(c: Value): Option<Value> {
    if c.Null? || c.Undefined? then None
    else if c.Obj? && "tool" in c.props then Some(c.props["tool"])
    else Some(Undefined)
  }

  /** `a === b` where `b` is the caller's value and `a` comes from parsed
      storage: an array or object read from storage is never the caller's
      object. */
  predicate StrictEq(a: Value, b: Value) {
    match (a, b)
    case (Undefined, Undefined) => true
    case (Null, Null) => true
    case (Bool(x), Bool(y)) => x == y
    case (Num(x), Num(y)) => x == y
    case (Str(x), Str(y)) => x == y
    case _ => false
  }

  predicate Matches(c: Value, toolId: Value) {
    ToolOf(c).Some? && StrictEq(ToolOf(c).value, toolId)
  }

  /** `calcs.filter(c => c.tool === toolId)`, `None` for the `TypeError` on a
      `null` or `undefined` element. */
  function FilterTool(items: seq<Value>, toolId: Value): Option<seq<Value>> {
    if |items| == 0 then Some([])
    else
      match ToolOf(items[0])
      case None => None
      case Some(tool) =>
        match FilterTool(items[1..], toolId)
        case None => None
        case Some(rest) => Some(if StrictEq(tool, toolId) then [items[0]] + rest else rest)
  }

  /** The filter fails exactly when an element is `null` or `undefined`;
      otherwise it keeps exactly the matching elements. */
  lemma {:induction false} FilterToolSpec(items: seq<Value>, toolId: Value)
    ensures FilterTool(items, toolId).None? <==>
            exists i :: 0 <= i < |items| && (items[i].Null? || items[i].Undefined?)
    ensures FilterTool(items, toolId).Some? ==>
            forall x :: x in FilterTool(items, toolId).value <==> x in items && Matches(x, toolId)
  {
    if |items| > 0 {
      FilterToolSpec(items[1..], toolId);
      assert forall x :: x in items <==> x == items[0] || x in items[1..];
      if exists i :: 1 <= i < |items| && (items[i].Null? || items[i].Undefined?) {
        var i :| 1 <= i < |items| && (items[i].Null? || items[i].Undefined?);
        assert items[1..][i - 1] == items[i];
      }
      if exists i :: 0 <= i < |items[1..]| && (items[1..][i].Null? || items[1..][i].Undefined?) {
        var i :| 0 <= i < |items[1..]| && (items[1..][i].Null? || items[1..][i].Undefined?);
        assert items[i + 1] == items[1..][i];
      }
    }
  }

  /** Filtering a joined history is filtering each part. */
  lemma {:induction false} FilterToolConcat(a: seq<Value>, b: seq<Value>, toolId: Value)
    requires FilterTool(a, toolId).Some? && FilterTool(b, toolId).Some?
    ensures FilterTool(a + b, toolId) == Some(FilterTool(a, toolId).value + FilterTool(b, toolId).value)
  {
    if |a| == 0 {
      assert a + b == b;
      var fb := FilterTool(b, toolId).value;
      assert [] + fb == fb;
    } else {
      assert (a + b)[0] == a[0];
      assert (a + b)[1..] == a[1..] + b;
      FilterToolConcat(a[1..], b, toolId);
      var tool := ToolOf(a[0]).value;
      var fa, fb := FilterTool(a[1..], toolId).value, FilterTool(b, toolId).value;
      if StrictEq(tool, toolId) {
        assert [a[0]] + fa + fb == [a[0]] + (fa + fb);
      }
    }
  }

  /** Where `slice(0, limit)` ends on a list of length `len`: a negative limit
      counts from the end. */
  function SliceEnd(len: nat, limit: int): (e: nat)
    ensures e <= len
    ensures limit >= 0 ==> e == if limit < len then limit else len
  {
    if limit < 0 then (if len + limit < 0 then 0 else len + limit)
    else if limit < len then limit
    else len
  }

  /** What `getRecentCalculations(toolId, limit)` returns, `None` for a
      `TypeError` (a stored history that is not a list, or a `null` element
      met by the filter). A falsy tool id lists every tool; without a filter
      a stored string is sliced as a string. */
  function Recent(area: Area, toolId: Value, limit: int): (r: Option<Value>)
    ensures r.Some? ==> r.value.Arr? || r.value.Str?
    ensures r.Some? && r.value.Str? ==> !Truthy(toolId)
    ensures r.Some? && r.value.Arr? && limit >= 0 ==> |r.value.items| <= limit
  {
    var calcs := Read(area, RecentCalcsKey, Arr([]));
    if Truthy(toolId) then
      if calcs.Arr? then
        match FilterTool(calcs.items, toolId)
        case Some(f) => Some(Arr(f[..SliceEnd(|f|, limit)]))
        case None => None
      else None
    else if calcs.Arr? then Some(Arr(calcs.items[..SliceEnd(|calcs.items|, limit)]))
    else if calcs.Str? then Some(Str(calcs.s[..SliceEnd(|calcs.s|, limit)]))
    else None
  }

  /** With a tool id, the calculations listed are the first `limit` of that
      tool, newest first as stored; no more than `limit` are listed. */
  lemma {:induction false} RecentIsPrefix(area: Area, toolId: Value, limit: int)
    requires limit >= 0 && Truthy(toolId)
    requires Recent(area, toolId, limit).Some?
    ensures var items := Read(area, RecentCalcsKey, Arr([])).items;
            var r := Recent(area, toolId, limit).value.items;
            FilterTool(items, toolId).Some? &&
            |r| <= limit &&
            r == FilterTool(items, toolId).value[..|r|] &&
            (|r| < limit ==> r == FilterTool(items, toolId).value) &&
            forall x :: x in r ==> x in items && Matches(x, toolId)
  {
    var items := Read(area, RecentCalcsKey, Arr([])).items;
    FilterToolSpec(items, toolId);
  }

  /** A history without `null` elements filters without a `TypeError`. */
  lemma {:induction false} FilterToolDefined(items: seq<Value>, toolId: Value)
    requires forall i :: 0 <= i < |items| ==> !items[i].Null? && !items[i].Undefined?
    ensures FilterTool(items, toolId).Some?
  {
    FilterToolSpec(items, toolId);
  }

  /** After `saveCalculation` for a tool named by a non-empty string, that
      tool's recent calculations start with the record just saved, as read
      back from JSON. */
  lemma {:induction false} RecentAfterSave(area: Area, tool: string, data: Value, id: int, now: string, limit: int)
    requires tool != "" && limit >= 1
    requires Read(area, RecentCalcsKey, Arr([])).Arr?
    requires forall x :: x in Read(area, RecentCalcsKey, Arr([])).items ==> !x.Null? && !x.Undefined? && !x.NaN?
    ensures var c := NewCalc(Str(tool), data, id, now);
            var after := Written(area, true, RecentCalcsKey, Arr(Pushed(Read(area, RecentCalcsKey, Arr([])).items, c)));
            Recent(after, Str(tool), limit).Some? &&
            |Recent(after, Str(tool), limit).value.items| >= 1 &&
            Recent(after, Str(tool), limit).value.items[0] == Jsonify(c)
  {
    var history := Read(area, RecentCalcsKey, Arr([])).items;
    var c := NewCalc(Str(tool), data, id, now);
    var pushed := Pushed(history, c);
    PushedShape(history, c);
    var after := Written(area, true, RecentCalcsKey, Arr(pushed));
    var stored := Read(after, RecentCalcsKey, Arr([]));
    assert stored == Jsonify(Arr(pushed));
    var items := stored.items;
    assert pushed[0] == c;
    assert items[0] == JsonifyElement(pushed[0]);
    assert items[0] == Jsonify(c);
    assert Jsonify(c).props["tool"] == Str(tool);
    forall i | 1 <= i < |items|
      ensures !items[i].Null? && !items[i].Undefined?
    {
      assert items[i] == JsonifyElement(pushed[i]);
      assert pushed[i] == pushed[1..][i - 1] == history[i - 1];
      assert history[i - 1] in history;
      JsonifyDefined(history[i - 1]);
    }
    FilterToolDefined(items[1..], Str(tool));
    assert items == [items[0]] + items[1..];
  }

  /** The round trip turns nothing but `NaN`, `null` and `undefined` into
      `null` or `undefined`. */
  lemma {:induction false} JsonifyDefined(x: Value)
    requires !x.Null? && !x.Undefined? && !x.NaN?
    ensures !JsonifyElement(x).Null? && !JsonifyElement(x).Undefined?
  {
  }

  // ---------------------------------------------------------------------
  // Preferences
  // ---------------------------------------------------------------------

  const DefaultPreferences: Value := Obj(map[
    "theme" := Str("dark"),
    "currency" := Str("AUD"),
    "remember_inputs" := Bool(true),
    "auto_save" := Bool(true)
  ])

  /** `getPreferences()`. */
  function Preferences(area: Area): (r: Value)
    ensures WellFormed(area) ==> JsonSafe(r)
  {
    Read(area, PreferencesKey, DefaultPreferences)
  }

  /** The own properties of a JSON-safe value are JSON-safe. */
  lemma {:induction false} OwnPropsSafe(v: Value)
    requires JsonSafe(v)
    ensures forall k :: k in OwnProps(v) ==> JsonSafe(OwnProps(v)[k])
  {
    if v.Arr? {
      forall k | k in OwnProps(v)
        ensures JsonSafe(OwnProps(v)[k])
      {
        var i :| 0 <= i < |v.items| && k == NatToString(i);
      }
    }
  }

  /** After `updatePreferences(prefs)` on a writable area, the preferences
      read back are the earlier ones overlaid with `prefs`. */
  lemma {:induction false} PreferencesOverlay(area: Area, prefs: Value)
    requires WellFormed(area)
    requires forall k :: k in OwnProps(prefs) ==> JsonSafe(OwnProps(prefs)[k])
    ensures var merged := Spread(Preferences(area), prefs);
            Preferences(Written(area, true, PreferencesKey, merged)) == merged
  {
    var current := Preferences(area);
    assert JsonSafe(DefaultPreferences);
    OwnPropsSafe(current);
    var merged := Spread(current, prefs);
    assert JsonSafe(merged);
    JsonSafeRoundTrip(merged);
  }

  // ---------------------------------------------------------------------
  // Session data
  // ---------------------------------------------------------------------

  /** The `sessionStorage` key of session field `name`. */
  function SessionName(name: string): string {
    SessionKey + "_" + name
  }

  lemma {:induction false} SessionNameDistinct(a: string, b: string)
    requires a != b
    ensures SessionName(a) != SessionName(b)
  {
    var p := SessionKey + "_";
    assert SessionName(a)[|p|..] == a;
    assert SessionName(b)[|p|..] == b;
  }

  /** The session area holds each field of `fields` under its session key,
      and every other key as it was. */
  predicate SessionStored(before: Area, after: Area, fields: map<string, Value>) {
    (forall n :: n in fields ==> SessionName(n) in after && after[SessionName(n)] == Serialize(fields[n])) &&
    (forall k :: k in after && !IsSessionKeyOf(k, fields) ==> k in before && after[k] == before[k]) &&
    (forall k :: k in before && !IsSessionKeyOf(k, fields) ==> k in after)
  }

  predicate IsSessionKeyOf(k: string, fields: map<string, Value>) {
    exists n :: n in fields && k == SessionName(n)
  }

  lemma {:induction false} SessionStoredStep(before: Area, after: Area, fields: map<string, Value>, n: string, v: Value)
    requires SessionStored(before, after, fields) && n !in fields
    ensures SessionStored(before, after[SessionName(n) := Serialize(v)], fields[n := v])
  {
    var after' := after[SessionName(n) := Serialize(v)];
    var fields' := fields[n := v];
    forall m | m in fields'
      ensures SessionName(m) in after' && after'[SessionName(m)] == Serialize(fields'[m])
    {
      if m != n {
        SessionNameDistinct(m, n);
      }
    }
    forall k | k in after' && !IsSessionKeyOf(k, fields')
      ensures k in before && after'[k] == before[k]
    {
      assert k != SessionName(n);
      assert !IsSessionKeyOf(k, fields) by {
        forall m | m in fields
          ensures k != SessionName(m)
        {
          assert m in fields';
        }
      }
    }
    forall k | k in before && !IsSessionKeyOf(k, fields')
      ensures k in after'
    {
      assert !IsSessionKeyOf(k, fields) by {
        forall m | m in fields
          ensures k != SessionName(m)
        {
          assert m in fields';
        }
      }
    }
  }

  // ---------------------------------------------------------------------
  // The store
  // ---------------------------------------------------------------------

  /** The two storage areas of the browser, and whether each accepts writes. */
  class Store {
    var local: Area
    var session: Area
    var localWritable: bool
    var sessionWritable: bool

    predicate Valid()
      reads this
    {
      WellFormed(local) && WellFormed(session)
    }

    constructor(local0: Area, session0: Area, localWritable0: bool, sessionWritable0: bool)
      requires WellFormed(local0) && WellFormed(session0)
      ensures Valid()
      ensures local == local0 && session == session0
      ensures localWritable == localWritable0 && sessionWritable == sessionWritable0
    {
      local := local0;
      session := session0;
      localWritable := localWritable0;
      sessionWritable := sessionWritable0;
    }

    /** `set(key, value)`: `true` when the area took the write. */
    method Set(key: string, value: Value) returns (ok: bool)
      requires Valid()
      modifies this
      ensures Valid()
      ensures ok == localWritable
      ensures local == Written(old(local), localWritable, key, value)
      ensures session == old(session)
      ensures localWritable == old(localWritable) && sessionWritable == old(sessionWritable)
    {
      ok := localWritable;
      if ok {
        local := local[key := Serialize(value)];
      }
    }

    /** `remove(key)`. */
    method Remove(key: string) returns (ok: bool)
      requires Valid()
      modifies this
      ensures Valid()
      ensures ok && local == old(local) - {key}
      ensures session == old(session)
      ensures localWritable == old(localWritable) && sessionWritable == old(sessionWritable)
    {
      local := local - {key};
      ok := true;
    }

    /** `clearAll()`: every key of the module goes, nothing else does. */
    method ClearAll()
      requires Valid()
      modifies this
      ensures Valid()
      ensures forall k :: k in local <==> k in old(local) && k !in AllKeys
      ensures forall k :: k in local ==> local[k] == old(local)[k]
      ensures session == old(session)
      ensures localWritable == old(localWritable) && sessionWritable == old(sessionWritable)
    {
      for i := 0 to |AllKeys|
        invariant Valid()
        invariant forall k :: k in local <==> k in old(local) && k !in AllKeys[..i]
        invariant forall k :: k in local ==> local[k] == old(local)[k]
        invariant session == old(session)
        invariant localWritable == old(localWritable) && sessionWritable == old(sessionWritable)
      {
        assert AllKeys[..i + 1] == AllKeys[..i] + [AllKeys[i]];
        var _ := Remove(AllKeys[i]);
      }
      assert AllKeys[..|AllKeys|] == AllKeys;
    }

    /** `getProfile()`. */
    method GetProfile(now: string) returns (profile: Value)
      requires Valid()
      modifies this
      ensures Valid()
      ensures profile == ProfileOf(old(local), now)
      ensures local == ProfileArea(old(local), localWritable, now)
      ensures session == old(session)
      ensures localWritable == old(localWritable) && sessionWritable == old(sessionWritable)
    {
      profile := Read(local, UserProfileKey, Null);
      if !Truthy(profile) {
        profile := Obj(OwnProps(DefaultProfile));
        profile := Obj(profile.props["lastUpdated" := Str(now)]);
        var _ := Set(UserProfileKey, profile);
      }
    }

    /** `updateProfile(updates)`: `None` for the `TypeError` of the merge,
      after which only `getProfile`'s write has happened. */
    method UpdateProfile(updates: Value, now: string) returns (merged: Option<Value>)
      requires Valid()
      modifies this
      ensures Valid()
      ensures merged == UpdatedProfile(old(local), now, updates)
      ensures merged.None? ==> local == ProfileArea(old(local), localWritable, now)
      ensures merged.Some? ==>
                local == Written(ProfileArea(old(local), localWritable, now), localWritable, UserProfileKey, merged.value)
      ensures session == old(session)
      ensures localWritable == old(localWritable) && sessionWritable == old(sessionWritable)
    {
      var profile := GetProfile(now);
      var m := Merging.DeepMerge(profile, updates);
      if m.None? {
        return None;
      }
      var r := Obj(m.value.props["lastUpdated" := Str(now)]);
      var _ := Set(UserProfileKey, r);
      return Some(r);
    }

    /** `updateSection(section, data)`. */
    method UpdateSection(section: string, data: Value, now: string) returns (profile: Value)
      requires Valid()
      modifies this
      ensures Valid()
      ensures profile == SectionUpdated(ProfileOf(old(local), now), section, data, now)
      ensures SectionPresent(ProfileOf(old(local), now), section) ==>
                local == Written(ProfileArea(old(local), localWritable, now), localWritable, UserProfileKey, profile)
      ensures !SectionPresent(ProfileOf(old(local), now), section) ==>
                local == ProfileArea(old(local), localWritable, now)
      ensures session == old(session)
      ensures localWritable == old(localWritable) && sessionWritable == old(sessionWritable)
    {
      profile := GetProfile(now);
      if profile.Obj? && section in profile.props && Truthy(profile.props[section]) {
        profile := Obj(profile.props[section := Spread(profile.props[section], data)]);
        profile := Obj(profile.props["lastUpdated" := Str(now)]);
        var _ := Set(UserProfileKey, profile);
      }
    }

    /** `saveCalculation(toolId, data)` with `Date.now()` as `id`: `None` for
      the `TypeError` of `unshift` on a stored history that is not a list. */
    method SaveCalculation(toolId: Value, data: Value, id: int, now: string) returns (saved: Option<Value>)
      requires Valid()
      modifies this
      ensures Valid()
      ensures saved.None? <==> !Read(old(local), RecentCalcsKey, Arr([])).Arr?
      ensures saved.None? ==> local == old(local)
      ensures saved.Some? ==>
                saved.value == NewCalc(toolId, data, id, now) &&
                local == Written(old(local), localWritable, RecentCalcsKey,
                                 Arr(Pushed(Read(old(local), RecentCalcsKey, Arr([])).items, saved.value)))
      ensures session == old(session)
      ensures localWritable == old(localWritable) && sessionWritable == old(sessionWritable)
    {
      var calcs := Read(local, RecentCalcsKey, Arr([]));
      if !calcs.Arr? {
        return None;
      }
      var c := NewCalc(toolId, data, id, now);
      var items := [c] + calcs.items;
      if |items| > HistoryLimit {
        items := items[..|items| - 1];
      }
      var _ := Set(RecentCalcsKey, Arr(items));
      return Some(c);
    }

    /** `updatePreferences(prefs)`. */
    method UpdatePreferences(prefs: Value) returns (merged: Value)
      requires Valid()
      modifies this
      ensures Valid()
      ensures merged == Spread(Preferences(old(local)), prefs)
      ensures local == Written(old(local), localWritable, PreferencesKey, merged)
      ensures session == old(session)
      ensures localWritable == old(localWritable) && sessionWritable == old(sessionWritable)
    {
      var current := Read(local, PreferencesKey, DefaultPreferences);
      merged := Obj(OwnProps(current) + OwnProps(prefs));
      var _ := Set(PreferencesKey, merged);
    }

    /** `setSession(key, value)`. */
    method SetSession(key: string, value: Value) returns (ok: bool)
      requires Valid()
      modifies this
      ensures Valid()
      ensures ok == sessionWritable
      ensures session == if ok then old(session)[SessionName(key) := Serialize(value)] else old(session)
      ensures local == old(local)
      ensures localWritable == old(localWritable) && sessionWritable == old(sessionWritable)
    {
      ok := sessionWritable;
      if ok {
        session := session[SessionName(key) := Serialize(value)];
      }
    }

    /** The `setSession` loop of `applyUrlParams`: each field under its
      session key, in any order (the keys differ). */
    method StoreSession(fields: map<string, Value>)
      requires Valid()
      modifies this
      ensures Valid()
      ensures sessionWritable ==> SessionStored(old(session), session, fields)
      ensures !sessionWritable ==> session == old(session)
      ensures local == old(local)
      ensures localWritable == old(localWritable) && sessionWritable == old(sessionWritable)
    {
      var names := fields.Keys;
      ghost var done: map<string, Value> := map[];
      while names != {}
        invariant Valid()
        invariant names <= fields.Keys && done.Keys == fields.Keys - names
        invariant forall n :: n in done ==> done[n] == fields[n]
        invariant sessionWritable ==> SessionStored(old(session), session, done)
        invariant !sessionWritable ==> session == old(session)
        invariant local == old(local)
        invariant localWritable == old(localWritable) && sessionWritable == old(sessionWritable)
        decreases names
      {
        var n :| n in names;
        ghost var before := session;
        var _ := SetSession(n, fields[n]);
        if sessionWritable {
          SessionStoredStep(old(session), before, done, n, fields[n]);
        }
        done := done[n := fields[n]];
        names := names - {n};
      }
      assert done == fields;
    }

    /** `applyUrlParams()` for the query's name/value pairs: the routed
      fields, or `None` when `updateProfile` throws, before any session
      field is stored. */
    method ApplyUrlParams(params: seq<(string, string)>, now: string) returns (result: Option<Routing>)
      requires Valid()
      modifies this
      ensures Valid()
      ensures var r := Routed(ParsedParams(Mapping, params));
              (result.None? <==> |r.profile| > 0 && UpdatedProfile(old(local), now, UpdatesValue(r.profile)).None?) &&
              (result.Some? ==> result.value == r)
      ensures var r := Routed(ParsedParams(Mapping, params));
              var update := UpdatedProfile(old(local), now, UpdatesValue(r.profile));
              var profiled := ProfileArea(old(local), localWritable, now);
              local == if |r.profile| == 0 then old(local)
                       else if update.None? then profiled
                       else Written(profiled, localWritable, UserProfileKey, update.value)
      ensures result.None? ==> session == old(session)
      ensures result.Some? && sessionWritable ==> SessionStored(old(session), session, result.value.session)
      ensures result.Some? && !sessionWritable ==> session == old(session)
      ensures localWritable == old(localWritable) && sessionWritable == old(sessionWritable)
    {
      var data := ParseUrlParams(params);
      var r := RouteParams(data);
      if |r.profile| > 0 {
        var merged := UpdateProfile(UpdatesValue(r.profile), now);
        if merged.None? {
          return None;
        }
      }
      StoreSession(r.session);
      return Some(r);
    }
  }
}
