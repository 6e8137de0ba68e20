/**
 The rewriting of XHTTP settings into the form the core accepts (core/xray/inbound.go:354-458).
 The settings are a JSON tree; numbers are left uninterpreted because nothing looks at them.
 */
module Xhttp {
  import opened Wrappers
  import opened Texts

  datatype Json =
    | Null
    | Bool(b: bool)
    | Number(n: real)
    | Text(s: string)
    | Array(items: seq<Json>)
    | Object(fields: map<string, Json>)

  // --- Headers --------------------------------------------------------------------------------------

  // The value of the first of the keys that holds a text.
  function Picked(m: map<string, Json>, keys: seq<string>): string {
    if keys == [] then ""
    else if keys[0] in m && m[keys[0]].Text? then TrimSpace(m[keys[0]].s)
    else Picked(m, keys[1..])
  }

  method PickHeaderString(m: map<string, Json>, keys: seq<string>) returns (r: string)
    ensures r == Picked(m, keys)
  {
    for i := 0 to |keys|
      invariant Picked(m, keys[i..]) == Picked(m, keys)
    {
      assert keys[i..][1..] == keys[i + 1..];
      if keys[i] in m && m[keys[i]].Text? {
        return TrimSpace(m[keys[i]].s);
      }
    }
    return "";
  }

  const NAME_KEYS := ["name", "key", "header"]
  const VALUE_KEYS := ["value", "val", "v"]

  // The header an array element stands for, if any.
  function HeaderOf(item: Json): Option<(string, string)> {
    match item
    case Object(h) =>
      var k := Picked(h, NAME_KEYS);
      if k == "" then None else Some((k, Picked(h, VALUE_KEYS)))
    case Text(h) =>
      (match Cut(h, ':')
       case None => None
       case Some(p) => if TrimSpace(p.0) == "" then None else Some((TrimSpace(p.0), TrimSpace(p.1))))
    case _ => None
  }

  predicate Names(item: Json, k: string) { HeaderOf(item).Some? && HeaderOf(item).value.0 == k }

  function Headers(arr: seq<Json>): map<string, Json> {
    if arr == [] then map[]
    else
      var before := Headers(arr[..|arr| - 1]);
      match HeaderOf(arr[|arr| - 1])
      case None => before
      case Some(h) => before[h.0 := Text(h.1)]
  }

  lemma {:induction false} HeadersAreTexts(arr: seq<Json>)
    ensures forall k :: k in Headers(arr) ==> Headers(arr)[k].Text?
    decreases |arr|
  {
    if arr != [] {
      HeadersAreTexts(arr[..|arr| - 1]);
    }
  }

  /** A header maps to the value of the last element that names it. */
  lemma {:induction false} LastElementWins(arr: seq<Json>, i: nat, k: string)
    requires i < |arr| && Names(arr[i], k) && forall j :: i < j < |arr| ==> !Names(arr[j], k)
    ensures k in Headers(arr) && Headers(arr)[k] == Text(HeaderOf(arr[i]).value.1)
    decreases |arr|
  {
    if i < |arr| - 1 {
      LastElementWins(arr[..|arr| - 1], i, k);
    }
  }

  /** And there are no headers but those some element names. */
  lemma {:induction false} NoOtherHeaders(arr: seq<Json>, k: string)
    requires forall i :: 0 <= i < |arr| ==> !Names(arr[i], k)
    ensures k !in Headers(arr)
    decreases |arr|
  {
    if arr != [] {
      NoOtherHeaders(arr[..|arr| - 1], k);
    }
  }

  method HeadersArrayToMap(arr: seq<Json>) returns (headers: map<string, Json>)
    ensures headers == Headers(arr)
  {
    headers := map[];
    for i := 0 to |arr|
      invariant headers == Headers(arr[..i])
    {
      assert arr[..i + 1][..i] == arr[..i];
      match arr[i]
      case Object(h) =>
        var k := PickHeaderString(h, NAME_KEYS);
        if k != "" {
          var value := PickHeaderString(h, VALUE_KEYS);
          headers := headers[k := Text(value)];
        }
      case Text(h) =>
        var parts := Cut(h, ':');
        if parts.Some? {
          var k := TrimSpace(parts.value.0);
          if k != "" {
            headers := headers[k := Text(TrimSpace(parts.value.1))];
          }
        }
      case _ =>
    }
    assert arr[..|arr|] == arr;
  }

  // --- The rewriting -----------------------------------------------------------------------------------

  const OBJECT_KEYS := {"sockopt", "tlssettings", "xhttpsettings", "downloadsettings", "xmux"}

  // The value under a key whose core type is an object must not be an array.
  function Fixed(k: string, v: Json): Json {
    if !v.Array? then v
    else if Lower(k) == "headers" then Object(Headers(v.items))
    else if Lower(k) in OBJECT_KEYS then Object(map[])
    else v
  }

  function Normalized(v: Json): Json {
    match v
    case Object(m) => Object(map k | k in m :: Fixed(k, Normalized(m[k])))
    case Array(a) => Array(seq(|a|, i requires 0 <= i < |a| => Normalized(a[i])))
    case _ => v
  }

  method NormalizeXHTTPValue(v: Json) returns (r: Json)
    ensures r == Normalized(v)
    decreases v
  {
    match v
    case Object(m) =>
      var out: map<string, Json> := map[];
      var keys := m.Keys;
      while keys != {}
        invariant keys <= m.Keys
        invariant out == map k | k in m && k !in keys :: Fixed(k, Normalized(m[k]))
        decreases |keys|
      {
        var k :| k in keys;
        keys := keys - {k};
        var child := NormalizeXHTTPValue(m[k]);
        if child.Array? && Lower(k) == "headers" {
          var headers := HeadersArrayToMap(child.items);
          out := out[k := Object(headers)];
        } else if child.Array? && Lower(k) in OBJECT_KEYS {
          out := out[k := Object(map[])];
        } else {
          out := out[k := child];
        }
      }
      return Object(out);
    case Array(a) =>
      var out: seq<Json> := [];
      for i := 0 to |a|
        invariant |out| == i && forall j :: 0 <= j < i ==> out[j] == Normalized(a[j])
      {
        var child := NormalizeXHTTPValue(a[i]);
        out := out + [child];
      }
      return Array(out);
    case _ =>
      return v;
  }

  predicate NeedsObject(k: string) { Lower(k) == "headers" || Lower(k) in OBJECT_KEYS }

  // No array under any of those keys, at any depth.
  predicate IsNormal(v: Json) {
    match v
    case Object(m) => forall k :: k in m ==> IsNormal(m[k]) && (NeedsObject(k) ==> !m[k].Array?)
    case Array(a) => forall i :: 0 <= i < |a| ==> IsNormal(a[i])
    case _ => true
  }

  lemma FixedIsNormal(k: string, v: Json)
    requires IsNormal(v)
    ensures IsNormal(Fixed(k, v)) && (NeedsObject(k) ==> !Fixed(k, v).Array?)
  {
    if v.Array? && Lower(k) == "headers" {
      HeadersAreTexts(v.items);
    }
  }

  /** The rewriting always reaches the normal form. */
  lemma {:induction false} NormalizedIsNormal(v: Json)
    ensures IsNormal(Normalized(v))
    decreases v
  {
    match v
    case Object(m) =>
      var out := Normalized(v).fields;
      forall k | k in out ensures IsNormal(out[k]) && (NeedsObject(k) ==> !out[k].Array?) {
        NormalizedIsNormal(m[k]);
        FixedIsNormal(k, Normalized(m[k]));
      }
    case Array(a) =>
      forall i | 0 <= i < |a| ensures IsNormal(Normalized(a[i])) {
        NormalizedIsNormal(a[i]);
      }
    case _ =>
  }

  lemma {:induction false} NormalIsKept(v: Json)
    requires IsNormal(v)
    ensures Normalized(v) == v
    decreases v
  {
    match v
    case Object(m) =>
      var out := Normalized(v).fields;
      assert out.Keys == m.Keys;
      forall k | k in m ensures out[k] == m[k] {
        NormalIsKept(m[k]);
      }
      assert out == m;
    case Array(a) =>
      forall i | 0 <= i < |a| ensures Normalized(a[i]) == a[i] {
        NormalIsKept(a[i]);
      }
      assert Normalized(v).items == a;
    case _ =>
  }

  /** Exactly the trees in normal form are left alone, so a second pass changes nothing. */
  lemma NormalizedKeepsExactlyNormal(v: Json)
    ensures Normalized(v) == v <==> IsNormal(v)
    ensures Normalized(Normalized(v)) == Normalized(v)
  {
    NormalizedIsNormal(v);
    NormalIsKept(Normalized(v));
    if IsNormal(v) {
      NormalIsKept(v);
    }
  }

  lemma {:induction false} PickedFromNormalized(m: map<string, Json>, keys: seq<string>)
    ensures Picked(Normalized(Object(m)).fields, keys) == Picked(m, keys)
    decreases |keys|
  {
    if keys != [] {
      PickedFromNormalized(m, keys[1..]);
    }
  }

  /** A header array is read after its elements were rewritten, and that makes no difference. */
  lemma {:induction false} HeadersSeeTheOriginal(arr: seq<Json>)
    ensures Headers(Normalized(Array(arr)).items) == Headers(arr)
    decreases |arr|
  {
    if arr != [] {
      var n := |arr| - 1;
      var out := Normalized(Array(arr)).items;
      assert out[..n] == Normalized(Array(arr[..n])).items;
      HeadersSeeTheOriginal(arr[..n]);
      if arr[n].Object? {
        PickedFromNormalized(arr[n].fields, NAME_KEYS);
        PickedFromNormalized(arr[n].fields, VALUE_KEYS);
      }
      assert HeaderOf(out[n]) == HeaderOf(arr[n]);
    }
  }

  // --- What the rewriting does to every tree -----------------------------------------------------------

  // What the element at hand says: the first of three keys that holds a text decides, trimmed.
  predicate FirstText(m: map<string, Json>, first: string, second: string, third: string, r: string) {
    if first in m && m[first].Text? then r == TrimSpace(m[first].s)
    else if second in m && m[second].Text? then r == TrimSpace(m[second].s)
    else if third in m && m[third].Text? then r == TrimSpace(m[third].s)
    else r == ""
  }

  // A text element is cut at this colon, the first one it has.
  predicate CutsAt(s: string, c: nat, name: string, value: string) {
    && c < |s| && s[c] == ':' && (forall j :: 0 <= j < c ==> s[j] != ':')
    && name == TrimSpace(s[..c]) && value == TrimSpace(s[c + 1..])
  }

  // The element of a header array gives this header this value.
  ghost predicate Gives(item: Json, name: string, value: string) {
    && name != ""
    && match item
       case Object(h) => FirstText(h, "name", "key", "header", name) && FirstText(h, "value", "val", "v", value)
       case Text(h) => exists c :: CutsAt(h, c, name, value)
       case _ => false
  }

  ghost predicate GivesSome(item: Json, name: string) { exists value :: Gives(item, name, value) }

  // The headers are those some element gives, each with the value of the last one that gives it.
  ghost predicate LastGiven(arr: seq<Json>, headers: map<string, Json>) {
    && (forall k :: k in headers <==> exists i :: 0 <= i < |arr| && GivesSome(arr[i], k))
    && (forall i, k, value :: 0 <= i < |arr| && Gives(arr[i], k, value) && NotGivenBehind(arr, i, k) ==>
          k in headers && headers[k] == Text(value))
  }

  ghost predicate NotGivenBehind(arr: seq<Json>, i: nat, k: string) {
    forall j :: i < j < |arr| ==> !GivesSome(arr[j], k)
  }

  // The tree is the same but for the arrays under a key that needs an object: an array of headers
  // becomes the object of its headers, any other becomes an empty object.
  ghost predicate Rewrites(v: Json, r: Json)
    decreases v, 0
  {
    match v
    case Object(m) =>
      r.Object? && r.fields.Keys == m.Keys && forall k :: k in m ==> RewritesField(k, m[k], r.fields[k])
    case Array(a) =>
      r.Array? && |r.items| == |a| && forall i :: 0 <= i < |a| ==> Rewrites(a[i], r.items[i])
    case _ => r == v
  }

  ghost predicate RewritesField(k: string, v: Json, r: Json)
    decreases v, 1
  {
    if v.Array? && Lower(k) == "headers" then r.Object? && LastGiven(v.items, r.fields)
    else if v.Array? && IsEmptied(Lower(k)) then r == Object(map[])
    else Rewrites(v, r)
  }

  predicate IsEmptied(k: string) {
    k == "sockopt" || k == "tlssettings" || k == "xhttpsettings" || k == "downloadsettings" || k == "xmux"
  }

  lemma CutIsAtTheColon(s: string, name: string, value: string)
    ensures (exists c :: CutsAt(s, c, name, value)) <==>
            Cut(s, ':').Some? && TrimSpace(Cut(s, ':').value.0) == name && TrimSpace(Cut(s, ':').value.1) == value
  {
    CutIsFirst(s, ':');
    if Cut(s, ':').Some? {
      var (a, b) := Cut(s, ':').value;
      assert s[..|a|] == a && s[|a| + 1..] == b && s[|a|] == ':';
      assert forall j :: 0 <= j < |a| ==> s[j] == a[j];
      forall c: nat | CutsAt(s, c, name, value) ensures c == |a| {
      }
      if TrimSpace(a) == name && TrimSpace(b) == value {
        assert CutsAt(s, |a|, name, value);
      }
    }
  }

  lemma PickedIsFirstText(m: map<string, Json>, first: string, second: string, third: string, r: string)
    ensures Picked(m, [first, second, third]) == r <==> FirstText(m, first, second, third, r)
  {
    var keys := [first, second, third];
    assert keys[1..] == [second, third] && [second, third][1..] == [third] && [third][1..] == [];
    assert Picked(m, []) == "";
    assert Picked(m, [third]) == if third in m && m[third].Text? then TrimSpace(m[third].s) else "";
    assert Picked(m, [second, third]) ==
           if second in m && m[second].Text? then TrimSpace(m[second].s) else Picked(m, [third]);
  }

  lemma HeaderOfIsGiven(item: Json, name: string, value: string)
    ensures HeaderOf(item) == Some((name, value)) <==> Gives(item, name, value)
  {
    match item
    case Object(h) =>
      PickedIsFirstText(h, "name", "key", "header", name);
      PickedIsFirstText(h, "value", "val", "v", value);
    case Text(h) => CutIsAtTheColon(h, name, value);
    case _ =>
  }

  lemma NamesIsGives(item: Json, k: string)
    ensures Names(item, k) <==> GivesSome(item, k)
    ensures Names(item, k) ==> Gives(item, k, HeaderOf(item).value.1)
    ensures forall value :: Gives(item, k, value) ==> Names(item, k) && value == HeaderOf(item).value.1
  {
    if Names(item, k) {
      HeaderOfIsGiven(item, k, HeaderOf(item).value.1);
    }
    forall value | Gives(item, k, value) ensures Names(item, k) && value == HeaderOf(item).value.1 {
      HeaderOfIsGiven(item, k, value);
    }
  }

  lemma {:induction false} LastNaming(arr: seq<Json>, k: string) returns (i: nat)
    requires exists j :: 0 <= j < |arr| && Names(arr[j], k)
    ensures i < |arr| && Names(arr[i], k) && forall j :: i < j < |arr| ==> !Names(arr[j], k)
  {
    i := |arr| - 1;
    while !Names(arr[i], k)
      invariant 0 <= i < |arr| && forall j :: i < j < |arr| ==> !Names(arr[j], k)
      decreases i
    {
      i := i - 1;
    }
  }

  lemma HeadersAreLastGiven(arr: seq<Json>)
    ensures LastGiven(arr, Headers(arr))
  {
    var headers := Headers(arr);
    forall k ensures k in headers <==> exists i :: 0 <= i < |arr| && GivesSome(arr[i], k) {
      forall i | 0 <= i < |arr| ensures Names(arr[i], k) <==> GivesSome(arr[i], k) {
        NamesIsGives(arr[i], k);
      }
      if exists i :: 0 <= i < |arr| && Names(arr[i], k) {
        var i := LastNaming(arr, k);
        LastElementWins(arr, i, k);
      } else {
        NoOtherHeaders(arr, k);
      }
    }
    forall i, k, value | 0 <= i < |arr| && Gives(arr[i], k, value) && NotGivenBehind(arr, i, k)
      ensures k in headers && headers[k] == Text(value)
    {
      forall j | i <= j < |arr| ensures Names(arr[j], k) <==> GivesSome(arr[j], k) {
        NamesIsGives(arr[j], k);
      }
      NamesIsGives(arr[i], k);
      LastElementWins(arr, i, k);
    }
  }

  // What the rewriting makes of one field, given what it makes of the value alone.
  lemma FixedRewrites(k: string, v: Json)
    requires Rewrites(v, Normalized(v))
    ensures RewritesField(k, v, Fixed(k, Normalized(v)))
  {
    if v.Array? && Lower(k) == "headers" {
      HeadersSeeTheOriginal(v.items);
      HeadersAreLastGiven(v.items);
    }
  }

  /** On every tree the rewriting does just that. */
  lemma {:induction false} NormalizedRewrites(v: Json)
    ensures Rewrites(v, Normalized(v))
    decreases v
  {
    match v
    case Object(m) =>
      forall k | k in m ensures RewritesField(k, m[k], Fixed(k, Normalized(m[k]))) {
        NormalizedRewrites(m[k]);
        FixedRewrites(k, m[k]);
      }
    case Array(a) =>
      forall i | 0 <= i < |a| ensures Rewrites(a[i], Normalized(a[i])) {
        NormalizedRewrites(a[i]);
      }
    case _ =>
  }

  lemma SomeGivesIffNamed(arr: seq<Json>, k: string)
    ensures (exists i :: 0 <= i < |arr| && GivesSome(arr[i], k)) <==> (exists i :: 0 <= i < |arr| && Names(arr[i], k))
  {
    forall i | 0 <= i < |arr| ensures Names(arr[i], k) <==> GivesSome(arr[i], k) {
      NamesIsGives(arr[i], k);
    }
  }

  lemma LastNamingGives(arr: seq<Json>, k: string) returns (i: nat, value: string)
    requires exists j :: 0 <= j < |arr| && Names(arr[j], k)
    ensures i < |arr| && Gives(arr[i], k, value) && NotGivenBehind(arr, i, k)
  {
    i := LastNaming(arr, k);
    value := HeaderOf(arr[i]).value.1;
    NamesIsGives(arr[i], k);
    forall j | i < j < |arr| ensures !GivesSome(arr[j], k) {
      NamesIsGives(arr[j], k);
    }
  }

  lemma LastGivenAgree(arr: seq<Json>, a: map<string, Json>, b: map<string, Json>, k: string)
    requires LastGiven(arr, a) && LastGiven(arr, b) && k in a
    ensures k in b && a[k] == b[k]
  {
    SomeGivesIffNamed(arr, k);
    var i, value := LastNamingGives(arr, k);
    assert a[k] == Text(value) && b[k] == Text(value);
  }

  lemma SameMaps(a: map<string, Json>, b: map<string, Json>)
    requires forall k :: k in a ==> k in b && a[k] == b[k]
    requires forall k :: k in b ==> k in a
    ensures a == b
  {
  }

  lemma LastGivenIsUnique(arr: seq<Json>, a: map<string, Json>, b: map<string, Json>)
    requires LastGiven(arr, a) && LastGiven(arr, b)
    ensures a == b
  {
    SameMaps(a, b) by {
      forall k | k in a ensures k in b && a[k] == b[k] {
        LastGivenAgree(arr, a, b, k);
      }
      forall k | k in b ensures k in a {
        LastGivenAgree(arr, b, a, k);
      }
    }
  }

  /** And nothing else meets that description: the rewritten tree is determined by it. */
  lemma {:induction false} RewritingIsUnique(v: Json, r: Json, r': Json)
    requires Rewrites(v, r) && Rewrites(v, r')
    ensures r == r'
    decreases v
  {
    match v
    case Object(m) =>
      forall k | k in m ensures r.fields[k] == r'.fields[k] {
        assert RewritesField(k, m[k], r.fields[k]) && RewritesField(k, m[k], r'.fields[k]);
        if m[k].Array? && Lower(k) == "headers" {
          LastGivenIsUnique(m[k].items, r.fields[k].fields, r'.fields[k].fields);
        } else if !(m[k].Array? && IsEmptied(Lower(k))) {
          RewritingIsUnique(m[k], r.fields[k], r'.fields[k]);
        }
      }
      assert r.fields == r'.fields;
    case Array(a) =>
      forall i | 0 <= i < |a| ensures r.items[i] == r'.items[i] {
        RewritingIsUnique(a[i], r.items[i], r'.items[i]);
      }
      assert r.items == r'.items;
    case _ =>
  }

  // --- Stream-one mode ------------------------------------------------------------------------------------

  const DOWNLOAD := "downloadSettings"

  predicate StreamOne(m: map<string, Json>) {
    "mode" in m && m["mode"].Text? && Lower(TrimSpace(m["mode"].s)) == "stream-one"
  }

  function Compat(v: Json): Json {
    if v.Object? && StreamOne(v.fields) then
      var m := v.fields - {DOWNLOAD};
      Object(if "extra" in m && m["extra"].Object? then m["extra" := Object(m["extra"].fields - {DOWNLOAD})] else m)
    else v
  }

  method NormalizeXHTTPModeCompat(v: Json) returns (r: Json)
    ensures r == Compat(v)
  {
    if !v.Object? {
      return v;
    }
    var obj := v.fields;
    var mode := if "mode" in obj && obj["mode"].Text? then obj["mode"].s else "";
    if Lower(TrimSpace(mode)) == "stream-one" {
      obj := obj - {DOWNLOAD};
      if "extra" in obj {
        if obj["extra"].Object? {
          var extra := obj["extra"].fields;
          extra := extra - {DOWNLOAD};
          obj := obj["extra" := Object(extra)];
        }
      }
    }
    return Object(obj);
  }

  // In stream-one mode neither the root nor its extra object has download settings.
  predicate IsCompat(v: Json) {
    v.Object? && StreamOne(v.fields) ==>
      && DOWNLOAD !in v.fields
      && ("extra" in v.fields && v.fields["extra"].Object? ==> DOWNLOAD !in v.fields["extra"].fields)
  }

  method NormalizeXHTTPSettings(payload: Json) returns (r: Json)
    ensures r == Compat(Normalized(payload))
    ensures exists normal :: Rewrites(payload, normal) && r == Compat(normal)
  {
    NormalizedRewrites(payload);
    r := NormalizeXHTTPValue(payload);
    r := NormalizeXHTTPModeCompat(r);
  }

  /** Outside stream-one mode nothing changes; in it the download settings of the root and of an extra
      object go, and everything else stays. */
  lemma CompatDropsOnlyDownloads(v: Json)
    ensures var r := Compat(v);
      if v.Object? && "mode" in v.fields && v.fields["mode"].Text? && Lower(TrimSpace(v.fields["mode"].s)) == "stream-one"
      then
        && r.Object?
        && (forall k :: k in r.fields <==> k in v.fields && k != "downloadSettings")
        && (forall k :: k in r.fields && k != "extra" ==> r.fields[k] == v.fields[k])
        && ("extra" in v.fields && !v.fields["extra"].Object? ==> r.fields["extra"] == v.fields["extra"])
        && ("extra" in v.fields && v.fields["extra"].Object? ==>
              && r.fields["extra"].Object?
              && var had, has := v.fields["extra"].fields, r.fields["extra"].fields;
                 && (forall k :: k in has <==> k in had && k != "downloadSettings")
                 && (forall k :: k in has ==> has[k] == had[k]))
      else r == v
  {
  }

  lemma CompatIsCompat(v: Json)
    ensures IsCompat(Compat(v)) && (IsCompat(v) <==> Compat(v) == v)
    ensures IsNormal(v) ==> IsNormal(Compat(v))
  {
    if v.Object? && StreamOne(v.fields) {
      var m := v.fields;
      var out := Compat(v).fields;
      assert out.Keys == m.Keys - {DOWNLOAD};
      assert "mode" in out && out["mode"] == m["mode"];
      assert forall k :: k in out && k != "extra" ==> out[k] == m[k];
      if "extra" in m && m["extra"].Object? {
        var extra := m["extra"].fields;
        assert out["extra"] == Object(extra - {DOWNLOAD});
        if DOWNLOAD !in extra {
          assert extra - {DOWNLOAD} == extra;
        }
        if IsNormal(v) {
          assert IsNormal(m["extra"]);
          assert IsNormal(out["extra"]);
        }
      }
      if IsCompat(v) {
        assert out == m;
      }
    }
  }

  /** The whole pass: its result is in normal form and fit for stream-one mode, exactly the trees
      that are so already are left alone, and a second pass changes nothing. */
  lemma SettingsReachTheNormalForm(v: Json)
    ensures var r := Compat(Normalized(v));
      && IsNormal(r) && IsCompat(r) && Compat(Normalized(r)) == r
      && (r == v <==> IsNormal(v) && IsCompat(v))
  {
    NormalizedIsNormal(v);
    CompatIsCompat(Normalized(v));
    var r := Compat(Normalized(v));
    NormalIsKept(r);
    CompatIsCompat(r);
    if IsNormal(v) && IsCompat(v) {
      NormalIsKept(v);
      CompatIsCompat(v);
    }
  }
}
