/**
 * The parts of Python 2's `urlparse` module the server uses: the path and
 * query of a request-target (`urlparse(t).path`, `urlparse(t).query`) and the
 * `application/x-www-form-urlencoded` decoder `parse_qs`.
 *
 * Both are modelled on a restricted input: targets in the form `PlainTarget`
 * describes and queries in the form `PlainQuery` describes. On those the
 * library's scheme, authority, parameter and fragment handling and its
 * percent- and plus-decoding have nothing to do.
 */
module Url {
  import opened Wrappers
  import opened Text

  /**
   * A target that is empty or an absolute path that does not start `//`,
   * with no fragment (`#`) and no path parameters (`;`). For such a target
   * the path is the text before the first `?`, as in section 3.3 of RFC 3986.
   */
  predicate PlainTarget(t: string) {
    && (t == [] || (t[0] == '/' && !(|t| >= 2 && t[1] == '/')))
    && '#' !in t
    && ';' !in t
  }

  /** The two components of `urlparse`'s result that the server reads. */
  datatype UrlInfo = UrlInfo(path: string, query: string)

  /** `urlparse(t)`: the path is the text before the first `?`, the query the text after it. */
  function UrlParse(t: string): (u: UrlInfo)
    requires PlainTarget(t)
    ensures '?' !in u.path
    ensures '?' in t ==> t == u.path + "?" + u.query
    ensures '?' !in t ==> u.path == t && u.query == ""
  {
    if '?' in t then
      var i := IndexOf(t, '?');
      IndexOfSplit(t, '?');
      assert t == t[..i] + "?" + t[i + 1..];
      UrlInfo(t[..i], t[i + 1..])
    else UrlInfo(t, "")
  }

  /** A query on which `parse_qs` does no decoding and splits on `&` only. */
  predicate PlainQuery(q: string) {
    '%' !in q && '+' !in q && ';' !in q
  }

  /** One `name=value` pair that `parse_qsl` keeps. */
  datatype Field = Field(name: string, value: string)

  /** The pair `part` holds the non-empty value bound to `key`: `key=value`, split at the first `=`. */
  predicate Binds(part: string, key: string) {
    '=' in part && part[..IndexOf(part, '=')] == key && IndexOf(part, '=') + 1 < |part|
  }

  /** The text after the first `=` of a pair. */
  function ValueOf(part: string): string
    requires '=' in part
  {
    part[IndexOf(part, '=') + 1..]
  }

  /** A pair written `key=value` with no `=` in the key and a non-empty value binds the key to that value. */
  lemma BindsPair(key: string, value: string)
    requires '=' !in key && value != []
    ensures Binds(key + "=" + value, key) && ValueOf(key + "=" + value) == value
  {
    IndexOfAfter(key, '=', value);
    var part := key + "=" + value;
    assert part == key + ['='] + value;
    assert part[..|key|] == key && part[|key| + 1..] == value;
  }

  /**
   * The pairs `parse_qsl(qs)` keeps from the pieces of `qs.split('&')`, in
   * order: an empty piece is skipped, a piece with no `=` is dropped, and so is
   * a pair whose value is empty (the default `keep_blank_values=0`).
   */
  function Fields(parts: seq<string>): (fs: seq<Field>)
    ensures |fs| <= |parts|
    ensures forall k :: 0 <= k < |fs| ==> fs[k].value != [] && '=' !in fs[k].name
  {
    if parts == [] then []
    else
      var p := parts[0];
      var rest := Fields(parts[1..]);
      if p == [] || '=' !in p then rest
      else
        var i := IndexOf(p, '=');
        IndexOfSplit(p, '=');
        if i + 1 < |p| then [Field(p[..i], p[i + 1..])] + rest else rest
  }

  /** `parse_qsl(q)` on a plain query. */
  function ParseQsl(q: string): seq<Field>
    requires PlainQuery(q)
  {
    Fields(Split(q, '&'))
  }

  /** The values bound to `key` in `fs`, in order. */
  function ValuesOf(fs: seq<Field>, key: string): seq<string>
  {
    if fs == [] then []
    else if fs[0].name == key then [fs[0].value] + ValuesOf(fs[1..], key)
    else ValuesOf(fs[1..], key)
  }

  /** One step of `parse_qs`'s loop: append the value to its name's list, creating the list if new. */
  function AddField(data: map<string, seq<string>>, f: Field): map<string, seq<string>>
  {
    data[f.name := (if f.name in data then data[f.name] else []) + [f.value]]
  }

  /**
   * `parse_qs`'s loop over the pairs, from the dictionary built so far: each
   * pair's value is appended to its name's list.
   */
  function Collect(data: map<string, seq<string>>, fs: seq<Field>): map<string, seq<string>>
    decreases |fs|
  {
    if fs == [] then data
    else Collect(AddField(data, fs[0]), fs[1..])
  }

  /**
   * After the loop a name is present exactly when it was before or some pair
   * gives it a value, and its list is the old one followed by those values in
   * order.
   */
  lemma {:induction false} CollectKey(data: map<string, seq<string>>, fs: seq<Field>, k: string)
    ensures k in Collect(data, fs) <==> k in data || ValuesOf(fs, k) != []
    ensures k in Collect(data, fs) ==>
      Collect(data, fs)[k] == (if k in data then data[k] else []) + ValuesOf(fs, k)
    decreases |fs|
  {
    if fs != [] {
      var d := AddField(data, fs[0]);
      CollectKey(d, fs[1..], k);
      assert ValuesOf(fs, k) == (if fs[0].name == k then [fs[0].value] else []) + ValuesOf(fs[1..], k);
    }
  }

  /** Every list `parse_qs` builds from an empty dictionary holds at least one value. */
  lemma CollectNonEmpty(fs: seq<Field>)
    ensures forall k :: k in Collect(map[], fs) ==> Collect(map[], fs)[k] != []
  {
    forall k | k in Collect(map[], fs)
      ensures Collect(map[], fs)[k] != []
    {
      CollectKey(map[], fs, k);
    }
  }

  /** `parse_qs(q)` on a plain query: each name to the values it is given. */
  function ParseQs(q: string): (data: map<string, seq<string>>)
    requires PlainQuery(q)
    ensures forall k :: k in data ==> data[k] != []
  {
    CollectNonEmpty(ParseQsl(q));
    Collect(map[], ParseQsl(q))
  }

  /**
   * A reference reading of `parse_qs(q)[key][0]`: the value of the first
   * piece of `q.split('&')` that binds `key` to a non-empty value.
   */
  function FirstValue(parts: seq<string>, key: string): (r: Option<string>)
    ensures r.None? <==> forall i :: 0 <= i < |parts| ==> !Binds(parts[i], key)
    ensures r.Some? ==> exists i :: 0 <= i < |parts| && Binds(parts[i], key) && r.value == ValueOf(parts[i])
                                   && forall j :: 0 <= j < i ==> !Binds(parts[j], key)
  {
    if parts == [] then None
    else if Binds(parts[0], key) then Some(ValueOf(parts[0]))
    else
      var r := FirstValue(parts[1..], key);
      assert forall i :: 1 <= i < |parts| ==> parts[i] == parts[1..][i - 1];
      r
  }

  /** The pairs kept from `parts` bind `key` exactly as `FirstValue` reads it. */
  lemma {:induction false} FieldsValues(parts: seq<string>, key: string)
    ensures var vs := ValuesOf(Fields(parts), key);
      (vs != [] <==> FirstValue(parts, key).Some?) && (vs != [] ==> vs[0] == FirstValue(parts, key).value)
  {
    if parts != [] {
      FieldsValues(parts[1..], key);
    }
  }

  /**
   * `parse_qs(q)` has `key` exactly when some pair of `q` gives it a non-empty
   * value, and then the first value in its list is that of the first such pair.
   */
  lemma ParseQsLookup(q: string, key: string)
    requires PlainQuery(q)
    ensures key in ParseQs(q) <==> FirstValue(Split(q, '&'), key).Some?
    ensures key in ParseQs(q) ==> ParseQs(q)[key] != [] && ParseQs(q)[key][0] == FirstValue(Split(q, '&'), key).value
  {
    FieldsValues(Split(q, '&'), key);
    CollectKey(map[], ParseQsl(q), key);
  }
}
