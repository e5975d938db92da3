/** Shared value types: optional values, tagged results and completions. */
module Basics {

  /** An optional value; `None` stands for JavaScript's `null` / `undefined`. */
  datatype Option<+T> = None | Some(value: T) {
    function GetOr(default: T): T {
      match this
      case Some(v) => v
      case None => default
    }
  }

  /** The `{ ok: true, ... } | { ok: false, message }` objects every entry point returns. */
  datatype Result<+T> = Ok(value: T) | Fail(message: string)

  /** A thrown error: an optional HTTP status (`error.response.statusCode`),
      its `message` and its `description` ("" when absent). */
  datatype Error = Error(status: Option<int>, message: string, description: string)

  /** How an async function ends: it returns a value or throws an error. */
  datatype Completion<+T> = Normal(value: T) | Abrupt(error: Error)

  /** One awaited library call (`fetch`, `axios.get`, an Amadeus SDK method): it
      resolved with a response, or it threw. */
  datatype Call<+T> = Returned(value: T) | Threw(error: Error)

  /** A status in [400, 500): a client error, never retried by the Amadeus helpers. */
  predicate IsClientError(e: Error) {
    e.status.Some? && 400 <= e.status.value < 500
  }

  /** `s.slice(0, n)` */
  function Take<T>(s: seq<T>, n: nat): (r: seq<T>)
    ensures |r| == if n < |s| then n else |s|
    ensures r == s[..|r|]
  {
    if n < |s| then s[..n] else s
  }

  /** `s.filter(p)` */
  function Filter<T(==,!new)>(s: seq<T>, p: T -> bool): (r: seq<T>)
    ensures |r| <= |s|
    ensures forall x :: x in r <==> x in s && p(x)
    ensures IsSubseq(r, s)
  {
    if s == [] then []
    else if p(s[0]) then [s[0]] + Filter(s[1..], p)
    else Filter(s[1..], p)
  }

  /** One step of `Filter`: the head is kept exactly when it passes. */
  lemma FilterStep<T(!new)>(x: T, rest: seq<T>, p: T -> bool)
    ensures Filter([x] + rest, p) == if p(x) then [x] + Filter(rest, p) else Filter(rest, p)
  {
    assert ([x] + rest)[1..] == rest;
  }

  lemma FilterKeepsHead<T(!new)>(x: T, rest: seq<T>, p: T -> bool, r: seq<T>)
    requires p(x) && Filter(rest, p) == r
    ensures Filter([x] + rest, p) == [x] + r
  {
    FilterStep(x, rest, p);
  }

  lemma FilterDropsHead<T(!new)>(x: T, rest: seq<T>, p: T -> bool)
    requires !p(x)
    ensures Filter([x] + rest, p) == Filter(rest, p)
  {
    FilterStep(x, rest, p);
  }

  /** Five-element and four-element displays as chains of single-element heads. */
  lemma FiveAsCons<T>(a: T, b: T, z: T, c: T, d: T)
    ensures [a, b, z, c, d] == [a] + ([b] + ([z] + ([c] + [d])))
    ensures [a, b, c, d] == [a] + ([b] + ([c] + [d]))
  {
  }

  /** A five-element sequence is the display of its elements. */
  lemma FiveByIndex<T>(t: seq<T>, a: T, b: T, z: T, c: T, d: T)
    requires |t| == 5 && t[0] == a && t[1] == b && t[2] == z && t[3] == c && t[4] == d
    ensures t == [a, b, z, c, d]
  {
  }

  /** `a` is obtained from `b` by deleting elements (order kept). */
  predicate IsSubseq<T(==)>(a: seq<T>, b: seq<T>)
    decreases |b|
  {
    if a == [] then true
    else if b == [] then false
    else if a[0] == b[0] then IsSubseq(a[1..], b[1..])
    else IsSubseq(a, b[1..])
  }

  lemma {:induction false} SubseqRefl<T>(s: seq<T>)
    ensures IsSubseq(s, s)
    decreases |s|
  {
    if s != [] {
      SubseqRefl(s[1..]);
    }
  }

  /** Every element of a subsequence is an element of the whole. */
  lemma {:induction false} SubseqIn<T>(a: seq<T>, b: seq<T>, x: T)
    requires IsSubseq(a, b) && x in a
    ensures x in b
    decreases |b|
  {
    if a[0] == b[0] {
      if x != a[0] {
        assert x in a[1..];
        SubseqIn(a[1..], b[1..], x);
      }
    } else {
      SubseqIn(a, b[1..], x);
    }
  }

  /** Regrouping a concatenation, as a separate step so that the extensionality proof
      runs in a small context. */
  lemma AppendAssoc<T>(a: seq<T>, b: seq<T>, c: seq<T>)
    ensures a + (b + c) == (a + b) + c
  {
  }
}
