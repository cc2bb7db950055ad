/**
 * The `POST /api/social` handler of server.js: from the `platform`, `text`
 * and `url` of the request body to the share link of that platform.
 */
module SocialShare {

  import opened Wrappers
  import opened JsValues
  import opened UriComponent
  import opened UrlQuery

  /**
   * `String.prototype.toLowerCase` on one character, exact for every
   * character that can decide the platform switch: ASCII upper-case letters,
   * and the KELVIN SIGN U+212A, whose lower case is the ASCII `k`. Every other
   * character is kept; the lower case of any of them is, or holds, a
   * character outside ASCII, so no platform name can match either way.
   */
  function LowerChar(c: char): (r: char)
    ensures !('A' <= r <= 'Z')
    ensures 'a' <= r <= 'z' <==> 'a' <= c <= 'z' || 'A' <= c <= 'Z' || c == '\U{212A}'
    ensures c as int < 0x80 ==> r as int < 0x80
  {
    if 'A' <= c <= 'Z' then (c as int + 32) as char
    else if c == '\U{212A}' then 'k'
    else c
  }

  /** `toLowerCase` on a whole string, character by character. */
  function Lower(s: string): (r: string)
    ensures |r| == |s|
  {
    if s == [] then [] else [LowerChar(s[0])] + Lower(s[1..])
  }

  /** Lower-casing twice is lower-casing once. */
  lemma {:induction false} LowerIdempotent(s: string)
    ensures Lower(Lower(s)) == Lower(s)
  {
    if s != [] {
      LowerIdempotent(s[1..]);
      assert Lower(s)[1..] == Lower(s[1..]);
    }
  }

  /** A name already in ASCII lower case is its own lower case. */
  lemma {:induction false} LowerKeepsLowerCase(s: string)
    requires forall i :: 0 <= i < |s| ==> 'a' <= s[i] <= 'z'
    ensures Lower(s) == s
  {
    if s != [] {
      LowerKeepsLowerCase(s[1..]);
    }
  }

  /** The arms of the platform switch. */
  datatype Platform = Facebook | Twitter | Instagram | TikTok | Unrecognised

  /** The arm taken for an already lower-cased platform name, aliases included. */
  function Arm(lowered: string): (r: Platform)
    ensures r != Unrecognised ==> 2 <= |lowered| && forall i :: 0 <= i < |lowered| ==> 'a' <= lowered[i] <= 'z'
  {
    if lowered == "facebook" || lowered == "fb" then Facebook
    else if lowered == "twitter" then Twitter
    else if lowered == "ig" || lowered == "instagram" then Instagram
    else if lowered == "tiktok" then TikTok
    else Unrecognised
  }

  /**
   * `c` is one spelling of the lower-case letter `l`: `l` itself, its ASCII
   * capital, or, for `k`, the KELVIN SIGN.
   */
  predicate CaseVariant(c: char, l: char) {
    c == l || (c as int == l as int - 32) || (l == 'k' && c == '\U{212A}')
  }

  /** `p` spells the lower-case name `name`, each letter in either case. */
  predicate CasingOf(p: string, name: string) {
    |p| == |name| && forall i :: 0 <= i < |p| ==> CaseVariant(p[i], name[i])
  }

  /** Every spelling of a lower-case name lower-cases to that name. */
  lemma {:induction false} LowerOfCasing(p: string, name: string)
    requires forall i :: 0 <= i < |name| ==> 'a' <= name[i] <= 'z'
    requires CasingOf(p, name)
    ensures Lower(p) == name
  {
    if p != [] {
      assert CasingOf(p[1..], name[1..]) by {
        forall i | 0 <= i < |p[1..]|
          ensures CaseVariant(p[1..][i], name[1..][i])
        {
          assert p[1..][i] == p[i + 1] && name[1..][i] == name[i + 1];
        }
      }
      LowerOfCasing(p[1..], name[1..]);
      assert CaseVariant(p[0], name[0]);
      assert name == [name[0]] + name[1..];
    }
  }

  /** A name the switch lists selects its arm whatever the case it arrives in: `FB`, `Fb`, `TikTok`, `TWITTER`. */
  lemma NamedArm(p: string, name: string, arm: Platform)
    requires forall i :: 0 <= i < |name| ==> 'a' <= name[i] <= 'z'
    requires Arm(name) == arm
    requires CasingOf(p, name)
    ensures Arm(Lower(p)) == arm
  {
    LowerOfCasing(p, name);
  }

  /** Upper- and mixed-case spellings reach their arms. */
  lemma CasingExamples()
    ensures Arm(Lower("FB")) == Facebook
    ensures Arm(Lower("TikTok")) == TikTok
  {
    NamedArm("FB", "fb", Facebook);
    NamedArm("TikTok", "tiktok", TikTok);
  }

  /** What the handler answers: 400 with an error message, or 200 with the link. */
  datatype ShareReply = BadRequest(error: string) | Ok(shareUrl: string) {
    function Status(): int {
      if BadRequest? then 400 else 200
    }
  }

  /**
   * The handler body. An absent or empty platform is refused before anything
   * else; otherwise the link is chosen by the lower case of the platform.
   */
  function Share(platform: Field, text: Field, url: Field): (r: ShareReply)
    ensures r.BadRequest? <==> !Truthy(platform)
    ensures r.BadRequest? ==> r.error == "Missing platform" && r.Status() == 400
  {
    if !Truthy(platform) then BadRequest("Missing platform")
    else Ok(Link(Arm(Lower(platform.s)), text, url))
  }

  const FACEBOOK_SHARER: string := "https://www.facebook.com/sharer/sharer.php"
  const TWITTER_INTENT: string := "https://twitter.com/intent/tweet"
  const INSTAGRAM_HOME: string := "https://www.instagram.com/"
  const TIKTOK_SEARCH: string := "https://www.tiktok.com/search"

  /**
   * The switch: `text` and `url` (`""` when absent or empty) are encoded and
   * put into the platform's template; a platform outside the switch gets the
   * raw `url` back.
   */
  function Link(arm: Platform, text: Field, url: Field): string {
    var t := Encode(Or(text, ""));
    var u := Encode(Or(url, ""));
    match arm
    case Facebook => FACEBOOK_SHARER + "?u=" + u + "&quote=" + t
    case Twitter => TWITTER_INTENT + "?text=" + t + "&url=" + u
    case Instagram => INSTAGRAM_HOME
    case TikTok => TIKTOK_SEARCH + "?q=" + t
    case Unrecognised => Or(url, "")
  }

  // ----- properties of the handler -----

  /**
   * Only the lower case of the platform matters: a name and its lower case,
   * or any two names with the same lower case, give the same answer.
   */
  lemma ShareIgnoresCase(p: string, q: string, text: Field, url: Field)
    requires p != ""
    ensures Share(Str(p), text, url) == Share(Str(Lower(p)), text, url)
    ensures q != "" && Lower(p) == Lower(q) ==> Share(Str(p), text, url) == Share(Str(q), text, url)
  {
    LowerIdempotent(p);
  }

  /** `fb` is `facebook`. */
  lemma FacebookAlias(text: Field, url: Field)
    ensures Share(Str("fb"), text, url) == Share(Str("facebook"), text, url)
  {
    LowerKeepsLowerCase("fb");
    LowerKeepsLowerCase("facebook");
  }

  /** `ig` is `instagram`. */
  lemma InstagramAlias(text: Field, url: Field)
    ensures Share(Str("ig"), text, url) == Share(Str("instagram"), text, url)
  {
    LowerKeepsLowerCase("ig");
    LowerKeepsLowerCase("instagram");
  }

  /** Instagram always gets its home page, whatever the text and url. */
  lemma InstagramIsConstant(p: string, text: Field, url: Field)
    requires Lower(p) == "ig" || Lower(p) == "instagram"
    ensures Share(Str(p), text, url) == Ok("https://www.instagram.com/")
  {
  }

  /** A platform outside the switch gets the url back as it came, not encoded, or "" when there is none. */
  lemma UnrecognisedEchoesUrl(p: string, text: Field, url: Field)
    requires p != "" && Arm(Lower(p)) == Unrecognised
    ensures url.Str? ==> Share(Str(p), text, url) == Ok(url.s)
    ensures url.Absent? ==> Share(Str(p), text, url) == Ok("")
  {
  }

  /**
   * The Twitter link is the tweet-intent endpoint with `text` and `url`
   * encoded into its template, and reading its query back gives exactly the
   * parameters `text` and `url` with the caller's values: nothing in the
   * user's text can end a parameter, start another or cut the query short.
   */
  lemma TwitterLink(p: string, text: Field, url: Field)
    requires Lower(p) == "twitter"
    ensures Share(Str(p), text, url).Ok?
    ensures var link := Share(Str(p), text, url).shareUrl;
      && link == TWITTER_INTENT + "?text=" + Encode(Or(text, "")) + "&url=" + Encode(Or(url, ""))
      && Endpoint(link) == TWITTER_INTENT
      && QueryParameters(link) == Some([("text", Or(text, "")), ("url", Or(url, ""))])
  {
    assert Arm(Lower(p)) == Twitter;
    TwitterQuery(Or(text, ""), Or(url, ""));
  }

  lemma TwitterQuery(t: string, u: string)
    ensures var link := TWITTER_INTENT + "?text=" + Encode(t) + "&url=" + Encode(u);
      Endpoint(link) == TWITTER_INTENT && QueryParameters(link) == Some([("text", t), ("url", u)])
  {
    TwitterShape(Encode(t), Encode(u));
    TwitterNames();
    TwoParameterQuery(TWITTER_INTENT, "text", t, "url", u);
  }

  lemma TwitterNames()
    ensures '?' !in TWITTER_INTENT && PlainName("text") && PlainName("url")
  {
  }

  lemma TwitterShape(e1: string, e2: string)
    ensures TWITTER_INTENT + "?text=" + e1 + "&url=" + e2 == TWITTER_INTENT + "?" + "text" + "=" + e1 + "&" + "url" + "=" + e2
  {
  }

  /** The Facebook link carries the url as `u` and the text as `quote`, read back unchanged. */
  lemma FacebookLink(p: string, text: Field, url: Field)
    requires Lower(p) == "facebook" || Lower(p) == "fb"
    ensures Share(Str(p), text, url).Ok?
    ensures var link := Share(Str(p), text, url).shareUrl;
      && link == FACEBOOK_SHARER + "?u=" + Encode(Or(url, "")) + "&quote=" + Encode(Or(text, ""))
      && Endpoint(link) == FACEBOOK_SHARER
      && QueryParameters(link) == Some([("u", Or(url, "")), ("quote", Or(text, ""))])
  {
    assert Arm(Lower(p)) == Facebook;
    FacebookQuery(Or(url, ""), Or(text, ""));
  }

  lemma FacebookQuery(u: string, t: string)
    ensures var link := FACEBOOK_SHARER + "?u=" + Encode(u) + "&quote=" + Encode(t);
      Endpoint(link) == FACEBOOK_SHARER && QueryParameters(link) == Some([("u", u), ("quote", t)])
  {
    FacebookShape(Encode(u), Encode(t));
    FacebookNames();
    TwoParameterQuery(FACEBOOK_SHARER, "u", u, "quote", t);
  }

  lemma FacebookNames()
    ensures '?' !in FACEBOOK_SHARER && PlainName("u") && PlainName("quote")
  {
  }

  lemma FacebookShape(e1: string, e2: string)
    ensures FACEBOOK_SHARER + "?u=" + e1 + "&quote=" + e2 == FACEBOOK_SHARER + "?" + "u" + "=" + e1 + "&" + "quote" + "=" + e2
  {
  }

  /** The TikTok link is a search for the text, carried as `q` and read back unchanged; the url is not used. */
  lemma TikTokLink(p: string, text: Field, url: Field)
    requires Lower(p) == "tiktok"
    ensures Share(Str(p), text, url).Ok?
    ensures var link := Share(Str(p), text, url).shareUrl;
      && link == TIKTOK_SEARCH + "?q=" + Encode(Or(text, ""))
      && Endpoint(link) == TIKTOK_SEARCH
      && QueryParameters(link) == Some([("q", Or(text, ""))])
  {
    assert Arm(Lower(p)) == TikTok;
    TikTokQuery(Or(text, ""));
  }

  lemma TikTokQuery(t: string)
    ensures var link := TIKTOK_SEARCH + "?q=" + Encode(t);
      Endpoint(link) == TIKTOK_SEARCH && QueryParameters(link) == Some([("q", t)])
  {
    TikTokShape(Encode(t));
    assert BuildQuery([("q", t)]) == "q" + "=" + Encode(t);
    TikTokNames();
    LinkReadsBack(TIKTOK_SEARCH, [("q", t)]);
  }

  lemma TikTokNames()
    ensures '?' !in TIKTOK_SEARCH && PlainName("q")
  {
  }

  lemma TikTokShape(e: string)
    ensures TIKTOK_SEARCH + "?q=" + e == TIKTOK_SEARCH + "?" + ("q" + "=" + e)
  {
  }

  /** `base?n1=enc(v1)&n2=enc(v2)` reads back as `n1` and `n2` with `v1` and `v2`. */
  lemma TwoParameterQuery(base: string, n1: string, v1: string, n2: string, v2: string)
    requires '?' !in base && PlainName(n1) && PlainName(n2)
    ensures var link := base + "?" + n1 + "=" + Encode(v1) + "&" + n2 + "=" + Encode(v2);
      Endpoint(link) == base && QueryParameters(link) == Some([(n1, v1), (n2, v2)])
  {
    var ps := [(n1, v1), (n2, v2)];
    TwoParameterBuild(n1, v1, n2, v2);
    TwoParameterShape(base, n1, Encode(v1), n2, Encode(v2));
    LinkReadsBack(base, ps);
  }

  lemma TwoParameterBuild(n1: string, v1: string, n2: string, v2: string)
    ensures BuildQuery([(n1, v1), (n2, v2)]) == (n1 + "=" + Encode(v1)) + "&" + (n2 + "=" + Encode(v2))
  {
    assert [(n1, v1), (n2, v2)][1..] == [(n2, v2)];
  }

  lemma TwoParameterShape(base: string, n1: string, e1: string, n2: string, e2: string)
    ensures base + "?" + n1 + "=" + e1 + "&" + n2 + "=" + e2 == base + "?" + ((n1 + "=" + e1) + "&" + (n2 + "=" + e2))
  {
  }

  lemma LinkReadsBack(base: string, ps: seq<(string, string)>)
    requires '?' !in base
    requires |ps| >= 1
    requires forall i :: 0 <= i < |ps| ==> PlainName(ps[i].0)
    ensures QueryParameters(base + "?" + BuildQuery(ps)) == Some(ps)
    ensures Endpoint(base + "?" + BuildQuery(ps)) == base
  {
    UrlReadsBack(base, ps);
    CutAt(base, '?', BuildQuery(ps));
    assert base + "?" + BuildQuery(ps) == base + ['?'] + BuildQuery(ps);
  }
}
