/**
 * Query parameters as `(name, value)` pairs and the text `Args::to_urlencoded` builds from them:
 * `&name=value` for every pair, the first one included.  A parser for that text is the
 * encoder's inverse.
 */
module Query {
  import opened Wrappers
  import opened Text

  /** A query parameter: the wire name and the formatted value. */
  type Pair = (string, string)

  /** What `to_urlencoded` appends for one pair: `&`, the name, `=`, the value. */
  function Segment(p: Pair): string {
    "&" + p.0 + "=" + p.1
  }

  /** The text `to_urlencoded` produces from a pair sequence, in sequence order. */
  function UrlEncoded(pairs: seq<Pair>): string
    decreases |pairs|
  {
    if pairs == [] then "" else UrlEncoded(pairs[..|pairs| - 1]) + Segment(pairs[|pairs| - 1])
  }

  /** No pairs give the empty string and any pair gives text that starts with `&`. */
  lemma {:induction false} UrlEncodedShape(pairs: seq<Pair>)
    ensures UrlEncoded(pairs) == "" <==> pairs == []
    ensures pairs != [] ==> UrlEncoded(pairs)[0] == '&'
    decreases |pairs|
  {
    if pairs != [] {
      var init := pairs[..|pairs| - 1];
      UrlEncodedShape(init);
      assert |Segment(pairs[|pairs| - 1])| > 0;
    }
  }

  /** The body of the closure `to_urlencoded` runs for each pair: `&`, the name, `=`, the value. */
  method AppendPair(buf: string, key: string, value: string) returns (buf': string)
    ensures buf' == buf + Segment((key, value))
  {
    buf' := buf + "&";
    buf' := buf' + key;
    buf' := buf' + "=";
    buf' := buf' + value;
  }

  /** Moving the first pending pair to the end of the done ones leaves their concatenation alone. */
  lemma MoveFirst(done: seq<Pair>, rest: seq<Pair>)
    requires rest != []
    ensures (done + [rest[0]]) + rest[1..] == done + rest
  {
    assert rest == [rest[0]] + rest[1..];
  }

  /** Appending a pair appends its segment. */
  lemma UrlEncodedSnoc(pairs: seq<Pair>, p: Pair)
    ensures UrlEncoded(pairs + [p]) == UrlEncoded(pairs) + Segment(p)
  {
    assert (pairs + [p])[..|pairs|] == pairs;
  }

  /** One or two pairs give one or two segments. */
  lemma UrlEncodedSmall(p: Pair, q: Pair)
    ensures UrlEncoded([p]) == Segment(p)
    ensures UrlEncoded([p, q]) == Segment(p) + Segment(q)
  {
    assert [p, q][..1] == [p];
    assert [p][..0] == [];
  }

  /** Encoding distributes over concatenation: each pair contributes its segment independently. */
  lemma {:induction false} UrlEncodedConcat(a: seq<Pair>, b: seq<Pair>)
    ensures UrlEncoded(a + b) == UrlEncoded(a) + UrlEncoded(b)
    decreases |b|
  {
    if b == [] {
      assert a + b == a;
    } else {
      var b', x := b[..|b| - 1], b[|b| - 1];
      assert b == b' + [x];
      assert a + b == (a + b') + [x];
      UrlEncodedConcat(a, b');
      UrlEncodedSnoc(a + b', x);
      UrlEncodedSnoc(b', x);
    }
  }

  /** Free of the two characters that delimit the query text. */
  predicate Plain(s: string) {
    '&' !in s && '=' !in s
  }

  predicate PlainPairs(pairs: seq<Pair>) {
    forall k :: 0 <= k < |pairs| ==> Plain(pairs[k].0) && Plain(pairs[k].1)
  }

  /** Exactly one `&` per pair when names and values hold none. */
  lemma {:induction false} AmpersandCount(pairs: seq<Pair>)
    requires forall k :: 0 <= k < |pairs| ==> '&' !in pairs[k].0 && '&' !in pairs[k].1
    ensures CountChar(UrlEncoded(pairs), '&') == |pairs|
    decreases |pairs|
  {
    if pairs != [] {
      var init, p := pairs[..|pairs| - 1], pairs[|pairs| - 1];
      AmpersandCount(init);
      CountCharConcat(UrlEncoded(init), Segment(p), '&');
      CountCharConcat("&" + p.0 + "=", p.1, '&');
      CountCharConcat("&" + p.0, "=", '&');
      CountCharConcat("&", p.0, '&');
      CountCharAbsent(p.0, '&');
      CountCharAbsent(p.1, '&');
      assert CountChar("&", '&') == 1 by {
        assert "&"[..0] == [];
      }
      assert CountChar("=", '&') == 0 by {
        assert "="[..0] == [];
      }
    }
  }

  /** The names of the pairs, in order. */
  function Keys(pairs: seq<Pair>): (ks: seq<string>)
    ensures |ks| == |pairs|
    decreases |pairs|
  {
    if pairs == [] then [] else [pairs[0].0] + Keys(pairs[1..])
  }

  /** The value of the first pair named `key`, if there is one. */
  function Lookup(pairs: seq<Pair>, key: string): Option<string>
    decreases |pairs|
  {
    if pairs == [] then None
    else if pairs[0].0 == key then Some(pairs[0].1)
    else Lookup(pairs[1..], key)
  }

  lemma {:induction false} LookupAbsent(pairs: seq<Pair>, key: string)
    requires key !in Keys(pairs)
    ensures Lookup(pairs, key) == None
    decreases |pairs|
  {
    if pairs != [] {
      assert Keys(pairs)[0] == pairs[0].0;
      assert Keys(pairs[1..]) == Keys(pairs)[1..];
      LookupAbsent(pairs[1..], key);
    }
  }

  /** `name=value`: a segment without its `&`. */
  function Body(p: Pair): string {
    p.0 + "=" + p.1
  }

  function Bodies(pairs: seq<Pair>): (bs: seq<string>)
    ensures |bs| == |pairs|
    decreases |pairs|
  {
    if pairs == [] then [] else Bodies(pairs[..|pairs| - 1]) + [Body(pairs[|pairs| - 1])]
  }

  function ParsePair(body: string): Option<Pair> {
    var kv := Split(body, '=');
    if |kv| == 2 then Some((kv[0], kv[1])) else None
  }

  function ParsePairs(bodies: seq<string>): Option<seq<Pair>>
    decreases |bodies|
  {
    if bodies == [] then Some([])
    else
      match ParsePairs(bodies[..|bodies| - 1])
      case None => None
      case Some(init) =>
        match ParsePair(bodies[|bodies| - 1])
        case None => None
        case Some(p) => Some(init + [p])
  }

  /** Reads query text of the shape `to_urlencoded` writes back into pairs. */
  function ParseQuery(s: string): Option<seq<Pair>> {
    if s == [] then Some([])
    else if s[0] != '&' then None
    else ParsePairs(Split(s[1..], '&'))
  }

  lemma {:induction false} UrlEncodedJoin(pairs: seq<Pair>)
    requires pairs != []
    ensures UrlEncoded(pairs) == "&" + Join(Bodies(pairs), '&')
    decreases |pairs|
  {
    var init, p := pairs[..|pairs| - 1], pairs[|pairs| - 1];
    if init == [] {
      assert Bodies(pairs) == [Body(p)];
    } else {
      UrlEncodedJoin(init);
      var bs := Bodies(pairs);
      assert bs[..|bs| - 1] == Bodies(init);
      assert Join(bs, '&') == Join(Bodies(init), '&') + ['&'] + Body(p);
      assert Segment(p) == ['&'] + Body(p);
    }
  }

  lemma ParsePairBody(p: Pair)
    requires Plain(p.0) && Plain(p.1)
    ensures ParsePair(Body(p)) == Some(p)
  {
    assert Join([p.0, p.1], '=') == Body(p) by {
      assert [p.0, p.1][..1] == [p.0];
    }
    SplitJoin([p.0, p.1], '=');
  }

  lemma {:induction false} ParseBodies(pairs: seq<Pair>)
    requires PlainPairs(pairs)
    ensures ParsePairs(Bodies(pairs)) == Some(pairs)
    decreases |pairs|
  {
    if pairs != [] {
      var init, p := pairs[..|pairs| - 1], pairs[|pairs| - 1];
      ParseBodies(init);
      ParsePairBody(p);
      var bs := Bodies(pairs);
      assert bs[..|bs| - 1] == Bodies(init);
      assert init + [p] == pairs;
    }
  }

  /** The encoding is invertible when names and values are free of `&` and `=`. */
  lemma ParseUrlEncoded(pairs: seq<Pair>)
    requires PlainPairs(pairs)
    ensures ParseQuery(UrlEncoded(pairs)) == Some(pairs)
  {
    if pairs != [] {
      UrlEncodedJoin(pairs);
      var bs := Bodies(pairs);
      forall k | 0 <= k < |bs| ensures '&' !in bs[k] {
        BodyAt(pairs, k);
      }
      assert UrlEncoded(pairs)[1..] == Join(bs, '&');
      SplitJoin(bs, '&');
      ParseBodies(pairs);
    }
  }

  lemma {:induction false} BodyAt(pairs: seq<Pair>, k: nat)
    requires k < |pairs|
    ensures Bodies(pairs)[k] == Body(pairs[k])
    decreases |pairs|
  {
    if k < |pairs| - 1 {
      BodyAt(pairs[..|pairs| - 1], k);
    }
  }
}
