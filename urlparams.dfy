/** The URL parameter handling of the storage module: reading the query
    string into profile and session fields (`parseUrlParams`), routing those
    fields (`applyUrlParams`) and writing a share link's query
    (`generateUrl`). A JavaScript object that these functions build and then
    walk with `Object.entries` is kept as a list of entries in insertion
    order. */
module UrlParams {
  import opened Wrappers
  import opened Strings
  import opened JsValues

  /** An object's own entries in insertion order, as `Object.entries` lists
      them. */
  type Entries = seq<(string, Value)>

  predicate DistinctKeys(es: Entries) {
    forall i, j :: 0 <= i < j < |es| ==> es[i].0 != es[j].0
  }

  predicate HasKey(es: Entries, k: string) {
    exists i :: 0 <= i < |es| && es[i].0 == k
  }

  /** The position of key `k`, if present (the first one). */
  function KeyIndex(es: Entries, k: string): (r: Option<nat>)
    ensures r.Some? ==> r.value < |es| && es[r.value].0 == k
    ensures r.Some? ==> forall i :: 0 <= i < r.value ==> es[i].0 != k
    ensures r.None? ==> forall i :: 0 <= i < |es| ==> es[i].0 != k
  {
    if |es| == 0 then None
    else if es[|es| - 1].0 == k && KeyIndex(es[..|es| - 1], k).None? then Some(|es| - 1)
    else KeyIndex(es[..|es| - 1], k)
  }

  /** `obj[k]` on an object given by its entries. */
  function Lookup(es: Entries, k: string): Option<Value> {
    match KeyIndex(es, k)
    case Some(i) => Some(es[i].1)
    case None => None
  }

  /** `obj[k] = v`: an existing key keeps its place and takes the new value,
      a new key goes last. */
  function Put(es: Entries, k: string, v: Value): (r: Entries)
    ensures DistinctKeys(es) ==> DistinctKeys(r)
  {
    match KeyIndex(es, k)
    case Some(i) => es[i := (k, v)]
    case None => es + [(k, v)]
  }

  /** After `obj[k] = v`, key `k` reads `v` and every other key reads what it
      read before. */
  lemma {:induction false} PutLookup(es: Entries, k: string, v: Value, other: string)
    ensures Lookup(Put(es, k, v), k) == Some(v)
    ensures other != k ==> Lookup(Put(es, k, v), other) == Lookup(es, other)
  {
    match KeyIndex(es, k)
    case None => PutNew(es, k, v, other);
    case Some(i) => PutReplace(es, k, v, other, i);
  }

  lemma {:induction false} PutNew(es: Entries, k: string, v: Value, other: string)
    requires KeyIndex(es, k).None?
    ensures Lookup(es + [(k, v)], k) == Some(v)
    ensures other != k ==> Lookup(es + [(k, v)], other) == Lookup(es, other)
  {
    LookupConcat(es, [(k, v)], k);
    LookupConcat(es, [(k, v)], other);
    LookupConcat([(k, v)], [], other);
    assert [(k, v)] + [] == [(k, v)];
    KeyIndexFirst([(k, v)], k, 0);
  }

  lemma {:induction false} PutReplace(es: Entries, k: string, v: Value, other: string, i: nat)
    requires KeyIndex(es, k) == Some(i)
    ensures Lookup(es[i := (k, v)], k) == Some(v)
    ensures other != k ==> Lookup(es[i := (k, v)], other) == Lookup(es, other)
  {
    var pre, rest := es[..i], es[i + 1..];
    assert es[i := (k, v)] == pre + ([(k, v)] + rest);
    assert es == pre + ([es[i]] + rest);
    LookupConcat(pre, [(k, v)] + rest, k);
    KeyIndexFirst([(k, v)] + rest, k, 0);
    if other != k {
      ReplaceAt(pre, es[i], rest, k, v, other);
    }
  }

  // ---------------------------------------------------------------------
  // parseUrlParams
  // ---------------------------------------------------------------------

  /** The query names the page understands (compared after lower-casing) and
      the field each fills: `section.field` for the profile, `_name` for the
      session. */
  const Mapping: map<string, string> := map[
    "income" := "income.salary",
    "salary" := "income.salary",
    "rental" := "income.rental",
    "rental_income" := "income.rental",
    "property_value" := "property.value",
    "prop_value" := "property.value",
    "property_debt" := "property.existing_debt",
    "state" := "property.state",
    "revenue" := "business.revenue",
    "ebitda" := "business.ebitda",
    "ebit" := "business.ebit",
    "industry" := "business.industry",
    "loan" := "_loan_amount",
    "loan_amount" := "_loan_amount",
    "rate" := "_interest_rate",
    "interest_rate" := "_interest_rate",
    "term" := "_loan_term"
  ]

  /** `value.replace(/,/g, '')`. */
  function RemoveCommas(s: string): (r: string)
    ensures Free(r, ',') && |r| <= |s|
  {
    if |s| == 0 then ""
    else if s[0] == ',' then RemoveCommas(s[1..])
    else [s[0]] + RemoveCommas(s[1..])
  }

  /** A query value as stored: the number `parseFloat` reads once the
      thousands separators are gone, or the text itself when that is `NaN`. */
  function ParsedValue(value: string): (v: Value)
    ensures v.Num? || v == Str(value)
    ensures v.Num? <==> ParseFloat(RemoveCommas(value)).Num?
  {
    var n := ParseFloat(RemoveCommas(value));
    if n.NaN? then Str(value) else n
  }

  /** The field a query name fills, if the page knows the name. */
  function MappedKey(mapping: map<string, string>, name: string): Option<string> {
    var lower := ToLower(name);
    if lower in mapping then Some(mapping[lower]) else None
  }

  /** What `parseUrlParams` builds from the query's name/value pairs, read in
      order: each known name writes its field, so a later pair for the same
      field wins. */
  function ParsedParams(mapping: map<string, string>, params: seq<(string, string)>): (data: Entries)
    ensures DistinctKeys(data)
  {
    if |params| == 0 then []
    else
      var data := ParsedParams(mapping, params[..|params| - 1]);
      var (name, value) := params[|params| - 1];
      match MappedKey(mapping, name)
      case Some(field) => Put(data, field, ParsedValue(value))
      case None => data
  }

  method ParseUrlParams(params: seq<(string, string)>) returns (data: Entries)
    ensures data == ParsedParams(Mapping, params)
  {
    data := [];
    for i := 0 to |params|
      invariant data == ParsedParams(Mapping, params[..i])
    {
      assert params[..i + 1][..i] == params[..i];
      var (name, value) := params[i];
      var mapped := MappedKey(Mapping, name);
      if mapped.Some? {
        data := Put(data, mapped.value, ParsedValue(value));
      }
    }
    assert params[..|params|] == params;
  }

  /** The last pair of the query whose name maps to `field`. */
  function LastFor(mapping: map<string, string>, params: seq<(string, string)>, field: string): (r: Option<nat>)
    ensures r.Some? ==> r.value < |params| && MappedKey(mapping, params[r.value].0) == Some(field)
    ensures r.Some? ==> forall j :: r.value < j < |params| ==> MappedKey(mapping, params[j].0) != Some(field)
    ensures r.None? ==> forall j :: 0 <= j < |params| ==> MappedKey(mapping, params[j].0) != Some(field)
  {
    if |params| == 0 then None
    else if MappedKey(mapping, params[|params| - 1].0) == Some(field) then Some(|params| - 1)
    else LastFor(mapping, params[..|params| - 1], field)
  }

  /** Each field holds the value of the last query pair that maps to it, and
      a field no pair maps to is absent. */
  lemma {:induction false} ParsedField(mapping: map<string, string>, params: seq<(string, string)>, field: string)
    ensures Lookup(ParsedParams(mapping, params), field) ==
            match LastFor(mapping, params, field)
            case Some(i) => Some(ParsedValue(params[i].1))
            case None => None
  {
    if |params| > 0 {
      var init := params[..|params| - 1];
      ParsedField(mapping, init, field);
      var (name, value) := params[|params| - 1];
      var data := ParsedParams(mapping, init);
      match MappedKey(mapping, name)
      case Some(f) => PutLookup(data, f, ParsedValue(value), field);
      case None =>
    }
  }

  /** Every field the query fills is one of the mapped fields. */
  lemma {:induction false} ParsedFieldsMapped(mapping: map<string, string>, params: seq<(string, string)>, i: nat)
    requires i < |ParsedParams(mapping, params)|
    ensures ParsedParams(mapping, params)[i].0 in mapping.Values
  {
    if |params| > 0 {
      var init := params[..|params| - 1];
      var data := ParsedParams(mapping, init);
      var (name, value) := params[|params| - 1];
      match MappedKey(mapping, name)
      case Some(f) =>
        assert ToLower(name) in mapping && mapping[ToLower(name)] == f;
        PutKeys(data, f, ParsedValue(value), i);
        if ParsedParams(mapping, params)[i].0 != f {
          ParsedFieldsMapped(mapping, init, i);
        }
      case None =>
        ParsedFieldsMapped(mapping, init, i);
    }
  }

  /** A key after `obj[k] = v` is `k` or a key the object had at that place. */
  lemma {:induction false} PutKeys(es: Entries, k: string, v: Value, i: nat)
    requires i < |Put(es, k, v)|
    ensures Put(es, k, v)[i].0 == k || (i < |es| && Put(es, k, v)[i] == es[i])
  {
  }

  // ---------------------------------------------------------------------
  // applyUrlParams routing
  // ---------------------------------------------------------------------

  /** Where `applyUrlParams` sends a field: a name starting with `_` goes to
      the session without the `_`; a name with exactly one `.` goes to that
      section and field of the profile; anything else is dropped. */
  datatype Route = ToSession(name: string) | ToProfile(section: string, field: string) | Dropped

  function RouteOf(key: string): Route {
    if |key| > 0 && key[0] == '_' then ToSession(key[1..])
    else
      var parts := Split(key, '.');
      if |parts| == 2 then ToProfile(parts[0], parts[1]) else Dropped
  }

  /** A key goes to the session exactly when it is `_` followed by the
      session name. */
  lemma {:induction false} RouteSession(key: string, name: string)
    ensures RouteOf(key) == ToSession(name) <==> key == "_" + name
  {
    if key == "_" + name {
      assert key[1..] == name;
    }
    if RouteOf(key) == ToSession(name) {
      assert key == [key[0]] + key[1..];
    }
  }

  /** A key goes to the profile exactly when it does not start with `_` and
      is a section and a field, neither containing `.`, joined by `.`. */
  lemma {:induction false} RouteProfile(key: string, section: string, field: string)
    ensures RouteOf(key) == ToProfile(section, field) <==>
            !(|key| > 0 && key[0] == '_') && Free(section, '.') && Free(field, '.') &&
            key == section + "." + field
  {
    if RouteOf(key) == ToProfile(section, field) {
      var parts := Split(key, '.');
      SplitJoin(key, '.');
      assert Join(parts[1..], '.') == parts[1];
      assert key == section + "." + field;
    }
    if !(|key| > 0 && key[0] == '_') && Free(section, '.') && Free(field, '.') &&
       key == section + "." + field {
      SplitPair(section, field, '.');
    }
  }

  /** Two different keys never land in the same place. */
  lemma {:induction false} RouteDistinct(k1: string, k2: string)
    requires k1 != k2 && !RouteOf(k1).Dropped?
    ensures RouteOf(k2) != RouteOf(k1)
  {
    match RouteOf(k1)
    case ToSession(n) =>
      RouteSession(k1, n);
      RouteSession(k2, n);
    case ToProfile(a, b) =>
      RouteProfile(k1, a, b);
      RouteProfile(k2, a, b);
  }

  /** The profile updates and session data `applyUrlParams` collects. */
  datatype Routing = Routing(profile: map<string, map<string, Value>>, session: map<string, Value>)

  /** One entry of the routing loop: a session field sets its name, a
      profile field sets its field in the section's object, creating the
      object on first use. */
  function RouteEntry(r: Routing, key: string, value: Value): Routing {
    match RouteOf(key)
    case ToSession(n) => Routing(r.profile, r.session[n := value])
    case ToProfile(a, b) =>
      var section := if a in r.profile then r.profile[a] else map[];
      Routing(r.profile[a := section[b := value]], r.session)
    case Dropped => r
  }

  function Routed(es: Entries): Routing {
    if |es| == 0 then Routing(map[], map[])
    else RouteEntry(Routed(es[..|es| - 1]), es[|es| - 1].0, es[|es| - 1].1)
  }

  method RouteParams(es: Entries) returns (r: Routing)
    ensures r == Routed(es)
  {
    var profile: map<string, map<string, Value>> := map[];
    var session: map<string, Value> := map[];
    for i := 0 to |es|
      invariant Routing(profile, session) == Routed(es[..i])
    {
      assert es[..i + 1][..i] == es[..i];
      var (key, value) := es[i];
      if |key| > 0 && key[0] == '_' {
        session := session[key[1..] := value];
      } else {
        var parts := Split(key, '.');
        if |parts| == 2 {
          if parts[0] !in profile {
            profile := profile[parts[0] := map[]];
          }
          profile := profile[parts[0] := profile[parts[0]][parts[1] := value]];
        }
      }
    }
    assert es[..|es|] == es;
    r := Routing(profile, session);
  }

  /** Each session entry is stored under its name with its value. */
  predicate SessionPlaced(es: Entries, r: Routing) {
    forall i :: 0 <= i < |es| && RouteOf(es[i].0).ToSession? ==>
      RouteOf(es[i].0).name in r.session && r.session[RouteOf(es[i].0).name] == es[i].1
  }

  /** Each profile entry is stored at its section and field with its value. */
  predicate ProfilePlaced(es: Entries, r: Routing) {
    forall i :: 0 <= i < |es| && RouteOf(es[i].0).ToProfile? ==>
      RouteOf(es[i].0).section in r.profile &&
      RouteOf(es[i].0).field in r.profile[RouteOf(es[i].0).section] &&
      r.profile[RouteOf(es[i].0).section][RouteOf(es[i].0).field] == es[i].1
  }

  /** Every session name comes from an entry. */
  predicate SessionSourced(es: Entries, r: Routing) {
    forall n :: n in r.session ==> exists i :: 0 <= i < |es| && RouteOf(es[i].0) == ToSession(n)
  }

  /** Every profile section and field comes from an entry. */
  predicate ProfileSourced(es: Entries, r: Routing) {
    forall a, b :: a in r.profile && b in r.profile[a] ==>
      exists i :: 0 <= i < |es| && RouteOf(es[i].0) == ToProfile(a, b)
  }

  /** For an object (no repeated keys), the routing puts each session and
      profile entry exactly where its key says, and nothing else. */
  predicate RoutedExactly(es: Entries, r: Routing) {
    SessionPlaced(es, r) && ProfilePlaced(es, r) && SessionSourced(es, r) && ProfileSourced(es, r)
  }

  /** No earlier entry routes where `key` does. */
  predicate FreshPlace(init: Entries, key: string) {
    forall i :: 0 <= i < |init| && !RouteOf(key).Dropped? ==> RouteOf(init[i].0) != RouteOf(key)
  }

  lemma {:induction false} RoutedPlaces(es: Entries)
    requires DistinctKeys(es)
    ensures RoutedExactly(es, Routed(es))
  {
    if |es| > 0 {
      var init := es[..|es| - 1];
      var (key, value) := es[|es| - 1];
      RoutedPlaces(init);
      var r0 := Routed(init);
      // the new key differs from every earlier one, so it lands in a fresh place
      forall i | 0 <= i < |init| && !RouteOf(key).Dropped?
        ensures RouteOf(init[i].0) != RouteOf(key)
      {
        assert es[i] == init[i];
        RouteDistinct(key, init[i].0);
      }
      StepSessionPlaced(init, key, value, r0);
      StepProfilePlaced(init, key, value, r0);
      StepSessionSourced(init, key, value, r0);
      StepProfileSourced(init, key, value, r0);
      assert es == init + [(key, value)];
    }
  }

  lemma {:induction false} StepSessionPlaced(init: Entries, key: string, value: Value, r0: Routing)
    requires SessionPlaced(init, r0) && FreshPlace(init, key)
    ensures SessionPlaced(init + [(key, value)], RouteEntry(r0, key, value))
  {
    var es := init + [(key, value)];
    forall i | 0 <= i < |es| && RouteOf(es[i].0).ToSession?
      ensures RouteOf(es[i].0).name in RouteEntry(r0, key, value).session
      ensures RouteEntry(r0, key, value).session[RouteOf(es[i].0).name] == es[i].1
    {
      if i < |init| {
        assert es[i] == init[i];
      }
    }
  }

  lemma {:induction false} StepProfilePlaced(init: Entries, key: string, value: Value, r0: Routing)
    requires ProfilePlaced(init, r0) && FreshPlace(init, key)
    ensures ProfilePlaced(init + [(key, value)], RouteEntry(r0, key, value))
  {
    var es := init + [(key, value)];
    var r := RouteEntry(r0, key, value);
    forall i | 0 <= i < |es| && RouteOf(es[i].0).ToProfile?
      ensures RouteOf(es[i].0).section in r.profile
      ensures RouteOf(es[i].0).field in r.profile[RouteOf(es[i].0).section]
      ensures r.profile[RouteOf(es[i].0).section][RouteOf(es[i].0).field] == es[i].1
    {
      if i < |init| {
        assert es[i] == init[i];
      }
    }
  }

  lemma {:induction false} StepSessionSourced(init: Entries, key: string, value: Value, r0: Routing)
    requires SessionSourced(init, r0)
    ensures SessionSourced(init + [(key, value)], RouteEntry(r0, key, value))
  {
    var es := init + [(key, value)];
    var r := RouteEntry(r0, key, value);
    forall n | n in r.session
      ensures exists i :: 0 <= i < |es| && RouteOf(es[i].0) == ToSession(n)
    {
      if RouteOf(key) == ToSession(n) {
        assert es[|init|] == (key, value);
      } else {
        var i :| 0 <= i < |init| && RouteOf(init[i].0) == ToSession(n);
        assert es[i] == init[i];
      }
    }
  }

  lemma {:induction false} StepProfileSourced(init: Entries, key: string, value: Value, r0: Routing)
    requires ProfileSourced(init, r0)
    ensures ProfileSourced(init + [(key, value)], RouteEntry(r0, key, value))
  {
    var es := init + [(key, value)];
    var r := RouteEntry(r0, key, value);
    forall a, b | a in r.profile && b in r.profile[a]
      ensures exists i :: 0 <= i < |es| && RouteOf(es[i].0) == ToProfile(a, b)
    {
      if RouteOf(key) == ToProfile(a, b) {
        assert es[|init|] == (key, value);
      } else {
        var i :| 0 <= i < |init| && RouteOf(init[i].0) == ToProfile(a, b);
        assert es[i] == init[i];
      }
    }
  }

  /** The profile updates as the nested object handed to `updateProfile`. */
  function UpdatesValue(profile: map<string, map<string, Value>>): (v: Value)
    ensures v.Obj? && v.props.Keys == profile.Keys
    ensures forall a :: a in profile ==> v.props[a] == Obj(profile[a])
  {
    Obj(map a | a in profile :: Obj(profile[a]))
  }

  // ---------------------------------------------------------------------
  // generateUrl
  // ---------------------------------------------------------------------

  /** The value test of `generateUrl`: `null`, `undefined`, the empty string
      and zero are left out of the link (`false` and `NaN` are kept). */
  predicate Kept(v: Value) {
    !(v.Null? || v.Undefined? || v == Str("") || v == Num(0.0))
  }

  /** The pairs without name `k`. */
  function Without(ps: Entries, k: string): (r: Entries)
    ensures |r| <= |ps|
    ensures forall i :: 0 <= i < |r| ==> r[i].0 != k
  {
    if |ps| == 0 then []
    else if ps[0].0 == k then Without(ps[1..], k)
    else [ps[0]] + Without(ps[1..], k)
  }

  /** `searchParams.set(k, v)`: the first pair named `k` takes the value and
      the other pairs named `k` go; with no such pair, the pair is added at
      the end. */
  function SetParam(ps: Entries, k: string, v: Value): Entries {
    match KeyIndex(ps, k)
    case Some(i) => ps[..i] + ([(k, v)] + Without(ps[i + 1..], k))
    case None => ps + [(k, v)]
  }

  /** After `set(k, v)` the name `k` reads `v`. */
  lemma {:induction false} SetParamSelf(ps: Entries, k: string, v: Value)
    ensures Lookup(SetParam(ps, k, v), k) == Some(v)
  {
    var r := SetParam(ps, k, v);
    match KeyIndex(ps, k)
    case Some(i) =>
      assert r[i] == (k, v);
      assert forall j :: 0 <= j < i ==> r[j] == ps[j];
      KeyIndexFirst(r, k, i);
    case None =>
      KeyIndexFirst(r, k, |ps|);
  }

  /** A key whose first occurrence is at `i` is found at `i`. */
  lemma {:induction false} KeyIndexFirst(es: Entries, k: string, i: nat)
    requires i < |es| && es[i].0 == k
    requires forall j :: 0 <= j < i ==> es[j].0 != k
    ensures KeyIndex(es, k) == Some(i)
  {
  }

  /** The query `generateUrl` writes: the link's own pairs, then each kept
      entry of `data`, in order, set into them. */
  function Generated(existing: Entries, data: Entries): Entries {
    if |data| == 0 then existing
    else
      var ps := Generated(existing, data[..|data| - 1]);
      var (k, v) := data[|data| - 1];
      if Kept(v) then SetParam(ps, k, v) else ps
  }

  method GenerateUrl(existing: Entries, data: Entries) returns (ps: Entries)
    ensures ps == Generated(existing, data)
  {
    ps := existing;
    for i := 0 to |data|
      invariant ps == Generated(existing, data[..i])
    {
      assert data[..i + 1][..i] == data[..i];
      var (k, v) := data[i];
      if !(v.Null? || v.Undefined? || v == Str("") || v == Num(0.0)) {
        ps := SetParam(ps, k, v);
      }
    }
    assert data[..|data|] == data;
  }

  /** The entries that pass the value test, in order. */
  function KeptEntries(data: Entries): (r: Entries)
    ensures forall i :: 0 <= i < |r| ==> Kept(r[i].1) && HasKey(data, r[i].0)
  {
    if |data| == 0 then []
    else
      var r := KeptEntries(data[..|data| - 1]);
      var (k, v) := data[|data| - 1];
      assert forall i :: 0 <= i < |r| ==> HasKey(data, r[i].0) by {
        forall i | 0 <= i < |r|
          ensures HasKey(data, r[i].0)
        {
          var j :| 0 <= j < |data| - 1 && data[..|data| - 1][j].0 == r[i].0;
          assert data[j].0 == r[i].0;
        }
      }
      if Kept(v) then r + [(k, v)] else r
  }

  /** A link without a query of its own gets exactly the kept entries of the
      object, in the object's order. */
  lemma {:induction false} GeneratedFresh(data: Entries)
    requires DistinctKeys(data)
    ensures Generated([], data) == KeptEntries(data)
  {
    if |data| > 0 {
      var init := data[..|data| - 1];
      var (k, v) := data[|data| - 1];
      GeneratedFresh(init);
      if Kept(v) {
        var ps := KeptEntries(init);
        forall i | 0 <= i < |ps|
          ensures ps[i].0 != k
        {
          var j :| 0 <= j < |init| && init[j].0 == ps[i].0;
          assert data[j] == init[j];
        }
        assert KeyIndex(ps, k).None?;
      }
    }
  }

  /** Whatever the link held, every kept entry of the object ends up in the
      query with its value, the names of left-out entries are not added,
      and a name that appears nowhere in the object keeps its pairs. */
  lemma {:induction false} GeneratedSets(existing: Entries, data: Entries, k: string)
    requires DistinctKeys(data)
    ensures forall i :: 0 <= i < |data| && data[i].0 == k && Kept(data[i].1) ==>
              Lookup(Generated(existing, data), k) == Some(data[i].1)
    ensures !HasKey(data, k) ==> Lookup(Generated(existing, data), k) == Lookup(existing, k)
  {
    if |data| > 0 {
      var init := data[..|data| - 1];
      var (k1, v1) := data[|data| - 1];
      GeneratedSets(existing, init, k);
      var ps := Generated(existing, init);
      if Kept(v1) && k1 != k {
        SetParamOther(ps, k1, v1, k);
      }
      if Kept(v1) && k1 == k {
        SetParamSelf(ps, k1, v1);
      }
      forall i | 0 <= i < |data| - 1 && data[i].0 == k && Kept(data[i].1)
        ensures Lookup(Generated(existing, data), k) == Some(data[i].1)
      {
        assert init[i] == data[i];
      }
      if !HasKey(data, k) {
        forall j | 0 <= j < |init|
          ensures init[j].0 != k
        {
          assert data[j] == init[j];
        }
      }
    }
  }

  /** Setting one name leaves what another name reads. */
  lemma {:induction false} SetParamOther(ps: Entries, k: string, v: Value, other: string)
    requires other != k
    ensures Lookup(SetParam(ps, k, v), other) == Lookup(ps, other)
  {
    match KeyIndex(ps, k)
    case None =>
      LookupConcat(ps, [(k, v)], other);
      LookupConcat([(k, v)], [], other);
      assert [(k, v)] + [] == [(k, v)];
    case Some(i) =>
      assert ps == ps[..i] + ([ps[i]] + ps[i + 1..]);
      ReplaceOther(ps[..i], ps[i], ps[i + 1..], k, v, other);
  }

  /** Replacing a pair named `k` and dropping the later ones does not change
      what another name reads. */
  lemma {:induction false} ReplaceOther(pre: Entries, x: (string, Value), rest: Entries, k: string, v: Value, other: string)
    requires x.0 == k && other != k
    ensures Lookup(pre + ([(k, v)] + Without(rest, k)), other) == Lookup(pre + ([x] + rest), other)
  {
    ReplaceAt(pre, x, Without(rest, k), k, v, other);
    LookupConcat(pre, [x] + Without(rest, k), other);
    LookupConcat([x], Without(rest, k), other);
    LookupWithout(rest, k, other);
    LookupConcat(pre, [x] + rest, other);
    LookupConcat([x], rest, other);
  }

  /** Replacing a pair named `k` does not change what another name reads. */
  lemma {:induction false} ReplaceAt(pre: Entries, x: (string, Value), rest: Entries, k: string, v: Value, other: string)
    requires x.0 == k && other != k
    ensures Lookup(pre + ([(k, v)] + rest), other) == Lookup(pre + ([x] + rest), other)
  {
    LookupConcat(pre, [(k, v)] + rest, other);
    LookupConcat([(k, v)], rest, other);
    LookupConcat([(k, v)], [], other);
    assert [(k, v)] + [] == [(k, v)];
    LookupConcat(pre, [x] + rest, other);
    LookupConcat([x], rest, other);
    LookupConcat([x], [], other);
    assert [x] + [] == [x];
  }

  /** A name is looked up in the first part of a list, then in the rest. */
  lemma {:induction false} LookupConcat(a: Entries, b: Entries, k: string)
    ensures Lookup(a + b, k) == if Lookup(a, k).Some? then Lookup(a, k) else Lookup(b, k)
  {
    KeyIndexConcat(a, b, k);
  }

  lemma {:induction false} KeyIndexConcat(a: Entries, b: Entries, k: string)
    ensures KeyIndex(a + b, k) ==
            match KeyIndex(a, k)
            case Some(i) => Some(i)
            case None => match KeyIndex(b, k) { case Some(j) => Some(|a| + j) case None => None }
  {
    var r := KeyIndex(a + b, k);
    match KeyIndex(a, k)
    case Some(i) =>
      KeyIndexFirst(a + b, k, i);
    case None =>
      match KeyIndex(b, k) {
        case Some(j) =>
          KeyIndexFirst(a + b, k, |a| + j);
        case None =>
          assert forall n :: 0 <= n < |a + b| ==> (a + b)[n].0 != k by {
            forall n | 0 <= n < |a + b|
              ensures (a + b)[n].0 != k
            {
              if n >= |a| {
                assert (a + b)[n] == b[n - |a|];
              }
            }
          }
      }
  }

  /** Dropping the pairs of one name keeps what another name reads. */
  lemma {:induction false} LookupWithout(ps: Entries, k: string, other: string)
    requires other != k
    ensures Lookup(Without(ps, k), other) == Lookup(ps, other)
  {
    if |ps| > 0 {
      LookupWithout(ps[1..], k, other);
      assert ps == [ps[0]] + ps[1..];
      LookupConcat([ps[0]], ps[1..], other);
      LookupConcat([ps[0]], [], other);
      assert [ps[0]] + [] == [ps[0]];
      if ps[0].0 != k {
        LookupConcat([ps[0]], Without(ps[1..], k), other);
      }
    }
  }
}
