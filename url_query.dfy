/**
 * Reading the query of a URL back, as the platform that receives a share link
 * does: the part after the first `?` and before the first `#`, split on `&`
 * into `name=value` parameters whose values are percent-decoded. The share
 * handler never parses URLs; its links are read back with this reader to
 * show that user text stays inside the parameter it was put in.
 */
module UrlQuery {

  import opened Wrappers
  import opened UriComponent

  /** The parts of `s` before and after its first `d`; `None` when `s` holds no `d`. */
  function Cut(s: string, d: char): (r: Option<(string, string)>)
    ensures r.None? <==> d !in s
    ensures r.Some? ==> s == r.value.0 + [d] + r.value.1 && d !in r.value.0
  {
    if s == [] then None
    else if s[0] == d then Some(([], s[1..]))
    else
      match Cut(s[1..], d)
      case None => None
      case Some((a, b)) => Some(([s[0]] + a, b))
  }

  /** Cutting at the first `d` finds exactly the `d` that no earlier one precedes. */
  lemma {:induction false} CutAt(a: string, d: char, b: string)
    requires d !in a
    ensures Cut(a + [d] + b, d) == Some((a, b))
  {
    var s := a + [d] + b;
    if a != [] {
      assert s[1..] == a[1..] + [d] + b;
      CutAt(a[1..], d, b);
      assert [a[0]] + a[1..] == a;
    } else {
      assert s[1..] == b;
    }
  }

  /** The pieces of `s` between occurrences of `d`. */
  function Split(s: string, d: char): (r: seq<string>)
    ensures |r| >= 1
    ensures forall i :: 0 <= i < |r| ==> d !in r[i]
    ensures Join(r, d) == s
    decreases |s|
  {
    match Cut(s, d)
    case None => [s]
    case Some((a, b)) =>
      var rest := Split(b, d);
      assert ([a] + rest)[1..] == rest;
      [a] + rest
  }

  /** Pieces glued back together with `d` between neighbours. */
  function Join(pieces: seq<string>, d: char): string
    requires |pieces| >= 1
  {
    if |pieces| == 1 then pieces[0] else pieces[0] + [d] + Join(pieces[1..], d)
  }

  lemma SplitAt(a: string, d: char, b: string)
    requires d !in a
    ensures Split(a + [d] + b, d) == [a] + Split(b, d)
  {
    CutAt(a, d, b);
  }

  /** A parameter's name and its still-encoded value: the parts around the first `=`, the whole piece and "" when there is none. */
  function Parameter(piece: string): (string, string) {
    match Cut(piece, '=')
    case None => (piece, "")
    case Some((name, value)) => (name, value)
  }

  /** Names with their decoded values; `None` when some value is not a valid encoding. */
  function DecodeParameters(pieces: seq<string>): Option<seq<(string, string)>> {
    if pieces == [] then Some([])
    else
      var (name, raw) := Parameter(pieces[0]);
      match Decode(raw)
      case None => None
      case Some(value) => Prepend([(name, value)], DecodeParameters(pieces[1..]))
  }

  /** The query of a URL as decoded parameters; `None` when it has no `?` or a value does not decode. */
  function QueryParameters(url: string): Option<seq<(string, string)>> {
    match Cut(url, '?')
    case None => None
    case Some((_, afterMark)) =>
      var query := match Cut(afterMark, '#') case None => afterMark case Some((q, _)) => q;
      DecodeParameters(Split(query, '&'))
  }

  /** The part of a URL before its query. */
  function Endpoint(link: string): string {
    match Cut(link, '?')
    case None => link
    case Some((base, _)) => base
  }

  // ----- writing a query -----

  /** A parameter name made only of unreserved characters, as every name in the share templates is. */
  predicate PlainName(name: string) {
    forall i :: 0 <= i < |name| ==> Unreserved(name[i])
  }

  /** `name=value` with the value passed through `encodeURIComponent`. */
  function EncodedParameter(p: (string, string)): string {
    p.0 + "=" + Encode(p.1)
  }

  /** `n1=enc(v1)&n2=enc(v2)&…` */
  function BuildQuery(ps: seq<(string, string)>): string
    requires |ps| >= 1
  {
    if |ps| == 1 then EncodedParameter(ps[0])
    else EncodedParameter(ps[0]) + "&" + BuildQuery(ps[1..])
  }

  lemma PlainNameHasNoDelimiter(name: string)
    requires PlainName(name)
    ensures '&' !in name && '=' !in name && '?' !in name && '#' !in name
  {
    forall i | 0 <= i < |name|
      ensures name[i] != '&' && name[i] != '=' && name[i] != '?' && name[i] != '#'
    {
      DelimiterNotInAlphabet(name[i]);
    }
  }

  lemma EncodedParameterReadsBack(p: (string, string))
    requires PlainName(p.0)
    ensures '&' !in EncodedParameter(p) && '#' !in EncodedParameter(p)
    ensures Parameter(EncodedParameter(p)) == (p.0, Encode(p.1))
  {
    PlainNameHasNoDelimiter(p.0);
    EncodeHasNoDelimiter(p.1);
    CutAt(p.0, '=', Encode(p.1));
    assert EncodedParameter(p) == p.0 + ['='] + Encode(p.1);
  }

  /** A query written from plain names and encoded values reads back as exactly those names and values. */
  lemma {:induction false} QueryRoundTrip(ps: seq<(string, string)>)
    requires |ps| >= 1
    requires forall i :: 0 <= i < |ps| ==> PlainName(ps[i].0)
    ensures '#' !in BuildQuery(ps)
    ensures DecodeParameters(Split(BuildQuery(ps), '&')) == Some(ps)
  {
    var first := EncodedParameter(ps[0]);
    EncodedParameterReadsBack(ps[0]);
    if |ps| == 1 {
      assert Split(first, '&') == [first];
      DecodeParametersCons(first, [], ps[0]);
      assert [ps[0]] + [] == ps;
    } else {
      QueryRoundTrip(ps[1..]);
      SplitAt(first, '&', BuildQuery(ps[1..]));
      assert BuildQuery(ps) == first + ['&'] + BuildQuery(ps[1..]);
      DecodeParametersCons(first, Split(BuildQuery(ps[1..]), '&'), ps[0]);
      assert [ps[0]] + ps[1..] == ps;
    }
  }

  /** Decoding a first piece that reads back as `p`, followed by the other pieces. */
  lemma DecodeParametersCons(first: string, pieces: seq<string>, p: (string, string))
    requires PlainName(p.0) && first == EncodedParameter(p)
    ensures DecodeParameters([first] + pieces) == Prepend([p], DecodeParameters(pieces))
  {
    EncodedParameterReadsBack(p);
    DecodeEncode(p.1);
    assert ([first] + pieces)[1..] == pieces;
  }

  /** A URL `base?query` with no `?` in the base and a query built as above reads back as the parameters put in. */
  lemma UrlReadsBack(base: string, ps: seq<(string, string)>)
    requires '?' !in base
    requires |ps| >= 1
    requires forall i :: 0 <= i < |ps| ==> PlainName(ps[i].0)
    ensures QueryParameters(base + "?" + BuildQuery(ps)) == Some(ps)
  {
    QueryRoundTrip(ps);
    CutAt(base, '?', BuildQuery(ps));
    assert base + "?" + BuildQuery(ps) == base + ['?'] + BuildQuery(ps);
  }
}
