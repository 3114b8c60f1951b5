/**
 Request payloads and their form encoding (`payload_to_bytes`, identical in
 paa.py and paa2.py), and the record of one conversation with the remote
 scheduling service.
 */
module Requests {
  import opened Wrappers
  import opened Text
  import opened OrderedMaps
  import opened JsonValues

  /** A request payload: field names and their formatted values, in insertion order. */
  type Payload = ODict<string, string>

  /** The requests issued against a finite stream of responses, the responses
      left unread, and the outcome. The stream stands for everything the
      service answers; reaching its end means the next post raised. */
  datatype Trace<T> = Trace(requests: seq<Payload>, rest: seq<Json>, result: Result<T>)

  /** `rest` is what is left of `responses` once some of them have been
      read from the front. */
  ghost predicate Unread(rest: seq<Json>, responses: seq<Json>)
    decreases |responses|
  {
    rest == responses || (|responses| > 0 && Unread(rest, responses[1..]))
  }

  /** Reading one response leaves the others. */
  lemma UnreadTail(responses: seq<Json>)
    requires |responses| > 0
    ensures Unread(responses[1..], responses)
  {
    assert Unread(responses[1..], responses[1..]);
  }

  /** The responses left after reading on from a remainder are a remainder
      of the original stream. */
  lemma {:induction false} UnreadTrans(a: seq<Json>, b: seq<Json>, c: seq<Json>)
    requires Unread(b, a) && Unread(c, b)
    ensures Unread(c, a)
    decreases |a|
  {
    if b != a {
      UnreadTrans(a[1..], b, c);
    }
  }

  /** A remainder is the suffix of its own length. */
  lemma {:induction false} UnreadSuffix(rest: seq<Json>, responses: seq<Json>)
    requires Unread(rest, responses)
    ensures |rest| <= |responses| && rest == responses[|responses| - |rest|..]
    decreases |responses|
  {
    if rest != responses {
      UnreadSuffix(rest, responses[1..]);
      assert responses[1..][|responses| - 1 - |rest|..] == responses[|responses| - |rest|..];
    }
  }

  /** One `k=v` item. */
  function Field(k: string, v: string): string {
    k + "=" + v
  }

  /** The items of a payload, each written `k=v`, in insertion order. */
  function Fields(p: Payload): (fields: seq<string>)
    requires p.Valid()
    ensures |fields| == |p.keys|
  {
    seq(|p.keys|, i requires 0 <= i < |p.keys| => Field(p.keys[i], p.vals[p.keys[i]]))
  }

  /** `payload_to_bytes(payload)` before `.encode()`: the `k=v` items joined by
      `&`, with no escaping of either part. */
  function Encode(p: Payload): (body: string)
    requires p.Valid()
    ensures body == "" <==> |p.keys| == 0
  {
    var fields := Fields(p);
    assert |fields| > 0 ==> |Join(fields, '&')| >= 1 by {
      if |fields| > 0 {
        assert fields[0] == Field(p.keys[0], p.vals[p.keys[0]]);
        JoinNonEmpty(fields, '&');
      }
    }
    Join(fields, '&')
  }

  /** Text a form field can carry through the encoding unchanged. */
  predicate PlainKey(k: string) {
    '&' !in k && '=' !in k
  }

  predicate PlainValue(v: string) {
    '&' !in v
  }

  /** A payload whose keys and values contain no separator of the encoding. */
  ghost predicate Plain(p: Payload)
    requires p.Valid()
  {
    forall k :: k in p.vals ==> PlainKey(k) && PlainValue(p.vals[k])
  }

  /** Splits one `k=v` item at its first `=`. */
  function SplitField(f: string): (string, string)
    decreases |f|
  {
    if |f| == 0 then ("", "")
    else if f[0] == '=' then ("", f[1..])
    else
      var rest := SplitField(f[1..]);
      ([f[0]] + rest.0, rest.1)
  }

  /** Reads a form body back into its items; the inverse of `Encode` on plain payloads. */
  function Decode(s: string): seq<(string, string)> {
    if |s| == 0 then []
    else
      var fields := Split(s, '&');
      seq(|fields|, i requires 0 <= i < |fields| => SplitField(fields[i]))
  }

  lemma {:induction false} SplitFieldOf(k: string, v: string)
    requires '=' !in k
    ensures SplitField(Field(k, v)) == (k, v)
    decreases |k|
  {
    if |k| == 0 {
      assert Field(k, v) == "=" + v;
      assert ("=" + v)[1..] == v;
    } else {
      assert Field(k, v)[1..] == Field(k[1..], v);
      SplitFieldOf(k[1..], v);
      assert [k[0]] + k[1..] == k;
    }
  }

  /** The encoding consists of exactly the payload's `k=v` items, in insertion
      order, with one `&` between consecutive items and nothing else. */
  lemma EncodeFields(p: Payload)
    requires p.Valid() && Plain(p) && |p.keys| >= 1
    ensures Split(Encode(p), '&') == Fields(p)
  {
    var fields := Fields(p);
    forall i | 0 <= i < |fields|
      ensures '&' !in fields[i]
    {
      assert p.keys[i] in p.vals;
    }
    JoinSplit(fields, '&');
  }

  /** An empty payload encodes to the empty body. */
  lemma EncodeEmpty(p: Payload)
    requires p.Valid() && |p.keys| == 0
    ensures Encode(p) == ""
  {
  }

  lemma {:induction false} JoinNonEmpty(fields: seq<string>, sep: char)
    requires |fields| >= 1 && |fields[0]| >= 1
    ensures |Join(fields, sep)| >= 1
  {
  }

  /** Decoding the encoding of a plain payload gives back its items in order:
      the encoding loses and adds nothing. */
  lemma EncodeDecodeRoundTrip(p: Payload)
    requires p.Valid() && Plain(p)
    ensures Decode(Encode(p)) == Items(p)
  {
    if |p.keys| == 0 {
      EncodeEmpty(p);
    } else {
      var fields := Fields(p);
      EncodeFields(p);
      JoinNonEmpty(fields, '&');
      forall i | 0 <= i < |fields|
        ensures SplitField(fields[i]) == Items(p)[i]
      {
        assert p.keys[i] in p.vals;
        SplitFieldOf(p.keys[i], p.vals[p.keys[i]]);
      }
    }
  }
}
