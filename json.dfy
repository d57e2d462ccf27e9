/**
 * The parsed JSON response of the session (cookie) posting channel, and the
 * chain of `dict.get` calls that pipeline.py uses to dig the new post's
 * identifier out of it.
 */
module Json {
  import opened Wrappers

  /** A decoded JSON value; `Null` is Python's `None`. */
  datatype Json =
    | Null
    | Bool(b: bool)
    | Number(n: int)
    | Str(s: string)
    | Array(items: seq<Json>)
    | Object(fields: map<string, Json>)

  /** What a chain of `.get` calls produces. */
  datatype Lookup =
    | Found(value: Json)  // the leaf, never `Null`
    | Missing             // the chain yields `None`
    | NotAnObject         // `.get` was called on a non-dict: Python raises AttributeError

  /** The keys of `data.create_tweet.tweet_results.result.rest_id`. */
  const RestIdPath: seq<string> := ["data", "create_tweet", "tweet_results", "result", "rest_id"]

  /**
   * `node.get(k0, {}).get(k1, {}) ... .get(kn)`: every key but the last
   * defaults to an empty dict, the last one to `None`.
   */
  function Get(node: Json, path: seq<string>): (r: Lookup)
    requires |path| >= 1
    ensures r.Found? ==> r.value != Null
    ensures !node.Object? ==> r == NotAnObject
    decreases |path|
  {
    match node
    case Object(fields) =>
      if |path| == 1 then
        if path[0] in fields && fields[path[0]] != Null then Found(fields[path[0]]) else Missing
      else
        Get(if path[0] in fields then fields[path[0]] else Object(map[]), path[1..])
    case _ => NotAnObject
  }

  /** The extraction of `rest_id` from the fallback channel's response. */
  function ExtractRestId(response: Json): (r: Lookup)
    ensures r.Found? ==> r.value != Null
  {
    Get(response, RestIdPath)
  }

  /** Strict navigation, with no defaults: `None` as soon as a key is absent or a level is not a dict. */
  function At(node: Json, keys: seq<string>): Option<Json>
    decreases |keys|
  {
    if keys == [] then Some(node)
    else if node.Object? && keys[0] in node.fields then At(node.fields[keys[0]], keys[1..])
    else None
  }

  /** The response `{k0: {k1: ... {kn: leaf}}}` that carries `leaf` at the end of `path`. */
  function Nest(path: seq<string>, leaf: Json): (r: Json)
    ensures At(r, path) == Some(leaf)
    decreases |path|
  {
    if path == [] then leaf
    else Object(map[path[0] := Nest(path[1..], leaf)])
  }

  /** Once a key is absent, every later `.get` sees the `{}` default, so the chain ends in `None`. */
  lemma {:induction false} GetEmptyObject(path: seq<string>)
    requires |path| >= 1
    ensures Get(Object(map[]), path) == Missing
    decreases |path|
  {
    if |path| > 1 {
      GetEmptyObject(path[1..]);
    }
  }

  /** The chain finds a leaf exactly when strict navigation reaches a non-`None` value. */
  lemma {:induction false} GetFoundIff(node: Json, path: seq<string>, v: Json)
    requires |path| >= 1
    ensures Get(node, path) == Found(v) <==> v != Null && At(node, path) == Some(v)
    decreases |path|
  {
    if node.Object? && |path| > 1 {
      var rest := path[1..];
      if path[0] in node.fields {
        GetFoundIff(node.fields[path[0]], rest, v);
      } else {
        GetEmptyObject(rest);
      }
    }
  }

  /**
   * A key missing at depth k, below k levels that are all dicts, makes the
   * chain yield `None` rather than raise.
   */
  lemma {:induction false} GetMissingKey(node: Json, path: seq<string>, k: nat)
    requires k < |path|
    requires At(node, path[..k]).Some? && At(node, path[..k]).value.Object?
    requires path[k] !in At(node, path[..k]).value.fields
    ensures Get(node, path) == Missing
    decreases k
  {
    if k == 0 {
      if |path| > 1 {
        GetEmptyObject(path[1..]);
      }
    } else {
      assert path[..k][0] == path[0] && path[..k][1..] == path[1..][..k - 1];
      GetMissingKey(node.fields[path[0]], path[1..], k - 1);
    }
  }

  /** A leaf that is `null`, below levels that are all dicts, reads as `None` rather than as a value. */
  lemma {:induction false} GetNullLeaf(node: Json, path: seq<string>)
    requires |path| >= 1 && At(node, path) == Some(Null)
    ensures Get(node, path) == Missing
    decreases |path|
  {
    if |path| > 1 {
      GetNullLeaf(node.fields[path[0]], path[1..]);
    }
  }

  /** A non-dict met at depth k above the leaf makes `.get` raise. */
  lemma {:induction false} GetNotObject(node: Json, path: seq<string>, k: nat)
    requires k < |path|
    requires At(node, path[..k]).Some? && !At(node, path[..k]).value.Object?
    ensures Get(node, path) == NotAnObject
    decreases k
  {
    if k > 0 {
      assert path[..k][0] == path[0] && path[..k][1..] == path[1..][..k - 1];
      GetNotObject(node.fields[path[0]], path[1..], k - 1);
    }
  }

  /** A response built around a leaf gives that leaf back; a `null` leaf reads as `None`. */
  lemma {:induction false} GetNest(path: seq<string>, leaf: Json)
    requires |path| >= 1
    ensures Get(Nest(path, leaf), path) == if leaf == Null then Missing else Found(leaf)
    decreases |path|
  {
    if |path| > 1 {
      GetNest(path[1..], leaf);
    }
  }

  /** The well-formed fallback response `{data: {create_tweet: {tweet_results: {result: {rest_id: id}}}}}`. */
  lemma ExtractRestIdOfNest(id: string)
    ensures ExtractRestId(Nest(RestIdPath, Str(id))) == Found(Str(id))
  {
    GetNest(RestIdPath, Str(id));
  }
}
