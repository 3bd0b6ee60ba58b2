/**
 * The start-up checks of the monitor and the target URL it polls.
 * Configuration values arrive as optional strings (an unset environment
 * variable is `None`); start-up either yields the target URL or fails.
 */
module Startup {
  import opened Wrappers

  /** Why start-up refuses to enter the polling loop. */
  datatype StartupError = MissingTarget | MalformedWhatsAppAddress

  const ApiPath: string := "/rest/api/latest/project/"
  const Query: string := "?expand=plans&max-result=500"
  const WhatsAppPrefix: string := "whatsapp:"
  const DefaultChannel: string := "whatsapp"

  /** `s` with every trailing `c` removed (Python's `s.rstrip(c)`). */
  function RStrip(s: string, c: char): (r: string)
    ensures r <= s
    ensures r == [] || r[|r| - 1] != c
    ensures forall i :: |r| <= i < |s| ==> s[i] == c
    decreases |s|
  {
    if s != [] && s[|s| - 1] == c then RStrip(s[..|s| - 1], c) else s
  }

  /** `n` copies of `c`. */
  function Repeat(c: char, n: nat): (r: string)
    ensures |r| == n && forall i :: 0 <= i < n ==> r[i] == c
  {
    if n == 0 then [] else Repeat(c, n - 1) + [c]
  }

  /** Any number of trailing `c` make no difference to `RStrip`. */
  lemma {:induction false} RStripIgnoresTrailing(s: string, c: char, n: nat)
    ensures RStrip(s + Repeat(c, n), c) == RStrip(s, c)
    decreases n
  {
    if n > 0 {
      var t := s + Repeat(c, n);
      assert t == (s + Repeat(c, n - 1)) + [c];
      assert t[..|t| - 1] == s + Repeat(c, n - 1);
      assert t[|t| - 1] == c;
      assert RStrip(t, c) == RStrip(t[..|t| - 1], c);
      RStripIgnoresTrailing(s, c, n - 1);
    } else {
      assert s + Repeat(c, n) == s;
    }
  }

  /** Stripping twice strips nothing more. */
  lemma RStripIdempotent(s: string, c: char)
    ensures RStrip(RStrip(s, c), c) == RStrip(s, c)
  {
  }

  /** ASCII lower-casing of one character. */
  function LowerChar(ch: char): (r: char)
    ensures 'A' <= ch <= 'Z' ==> 'a' <= r <= 'z' && r as int - ch as int == 'a' as int - 'A' as int
    ensures !('A' <= ch <= 'Z') ==> r == ch
  {
    if 'A' <= ch <= 'Z' then (ch as int - 'A' as int + 'a' as int) as char else ch
  }

  /** Lower-casing of a string, character by character. */
  function Lower(s: string): (r: string)
    ensures |r| == |s|
    ensures forall i :: 0 <= i < |s| ==> r[i] == LowerChar(s[i])
    ensures forall i :: 0 <= i < |r| ==> !('A' <= r[i] <= 'Z')
    decreases |s|
  {
    if s == [] then [] else Lower(s[..|s| - 1]) + [LowerChar(s[|s| - 1])]
  }

  /** Python's `str(x)` of an optional string: an unset value prints as "None". */
  function Display(o: Option<string>): (r: string)
    ensures o.Some? ==> r == o.value
    // an unset address never carries the WhatsApp prefix
    ensures o.None? ==> !(WhatsAppPrefix <= r)
  {
    match o
    case Some(v) => v
    case None => "None"
  }

  /** The endpoint polled for a base URL (without trailing '/') and a project key. */
  function TargetUrl(base: string, key: string): (r: string)
    ensures base + ApiPath <= r
    ensures |r| == |base| + |ApiPath| + |key| + |Query|
    ensures r[|base| + |ApiPath|..|r| - |Query|] == key
    ensures r[|r| - |Query|..] == Query
  {
    base + ApiPath + key + Query
  }

  /**
   * Start-up: the base URL (trailing '/' removed) and the project key must be
   * non-empty; then, when the lower-cased channel (default "whatsapp") is
   * "whatsapp", both sender and recipient must start with "whatsapp:".  On
   * success the result is the target URL.
   */
  function Start(baseUrl: Option<string>, projectKey: Option<string>, channel: Option<string>,
                 from: Option<string>, to: Option<string>): (r: Result<string, StartupError>)
    ensures r == Err(MissingTarget) <==> RStrip(baseUrl.GetOr(""), '/') == [] || projectKey.GetOr("") == []
    ensures r == Err(MalformedWhatsAppAddress) <==>
      RStrip(baseUrl.GetOr(""), '/') != [] && projectKey.GetOr("") != [] &&
      Lower(channel.GetOr(DefaultChannel)) == DefaultChannel &&
      !(WhatsAppPrefix <= Display(from) && WhatsAppPrefix <= Display(to))
    ensures r.Ok? ==>
      var base := RStrip(baseUrl.GetOr(""), '/');
      base != [] && base[|base| - 1] != '/' && base <= baseUrl.GetOr("") &&
      r.value == TargetUrl(base, projectKey.GetOr(""))
  {
    var base := RStrip(baseUrl.GetOr(""), '/');
    var key := projectKey.GetOr("");
    var ch := Lower(channel.GetOr(DefaultChannel));
    if base == [] || key == [] then Err(MissingTarget)
    else if ch == DefaultChannel && !(WhatsAppPrefix <= Display(from) && WhatsAppPrefix <= Display(to)) then
      Err(MalformedWhatsAppAddress)
    else Ok(TargetUrl(base, key))
  }

  /** Trailing slashes on the configured base URL do not change the outcome of start-up. */
  lemma TrailingSlashesIgnored(base: string, n: nat, projectKey: Option<string>, channel: Option<string>,
                               from: Option<string>, to: Option<string>)
    ensures Start(Some(base + Repeat('/', n)), projectKey, channel, from, to)
         == Start(Some(base), projectKey, channel, from, to)
  {
    RStripIgnoresTrailing(base, '/', n);
  }
}
