/** Reading one parameter out of a Digest challenge (section 3.2.1 of RFC 2617) and the nonce
    count text, as in src/cameractrl/zc_http_transport.cpp. */
module Digest {
  import opened Common

  // ---------------------------------------------------------------- text helpers

  /** The six characters QByteArray::trimmed() removes. */
  const BLANKS := [' ', '\t', '\n', '\U{0B}', '\U{0C}', '\r']

  const CAPITALS := "ABCDEFGHIJKLMNOPQRSTUVWXYZ"
  const SMALLS := "abcdefghijklmnopqrstuvwxyz"

  predicate IsSpace(c: char): (r: bool)
    ensures r <==> c in BLANKS
  {
    c == ' ' || ('\t' <= c <= '\r')
  }

  function TrimLeft(s: string): string {
    if s != "" && IsSpace(s[0]) then TrimLeft(s[1..]) else s
  }

  function TrimRight(s: string): string {
    if s != "" && IsSpace(s[|s| - 1]) then TrimRight(s[..|s| - 1]) else s
  }

  /** QByteArray::trimmed(). */
  function Trim(s: string): string {
    TrimRight(TrimLeft(s))
  }

  function LowerChar(c: char): char {
    if 'A' <= c <= 'Z' then c - 'A' + 'a' else c
  }

  /** x is c, or its small letter where c is a capital. */
  predicate SmallOf(c: char, x: char) {
    (forall k :: 0 <= k < 26 && c == CAPITALS[k] ==> x == SMALLS[k])
    && ((forall k :: 0 <= k < 26 ==> c != CAPITALS[k]) ==> x == c)
  }

  /** The word, letter by letter in either case. */
  predicate SameWord(s: string, word: string) {
    |s| == |word| && forall i :: 0 <= i < |s| ==> SmallOf(s[i], word[i])
  }

  lemma Alphabet(k: nat)
    requires k < 26
    ensures CAPITALS[k] == 'A' + k as char && SMALLS[k] == 'a' + k as char
  {
  }

  lemma LowerCharIs(c: char, x: char)
    ensures LowerChar(c) == x <==> SmallOf(c, x)
  {
    if 'A' <= c <= 'Z' {
      var i := (c - 'A') as int;
      Alphabet(i);
      forall k | 0 <= k < 26 && c == CAPITALS[k] ensures k == i {
        Alphabet(k);
      }
    } else {
      forall k | 0 <= k < 26 ensures c != CAPITALS[k] {
        Alphabet(k);
      }
    }
  }

  /** Folding to small letters is comparing letter by letter. */
  lemma LowerIs(s: string, word: string)
    ensures Lower(s) == word <==> SameWord(s, word)
  {
    hide SmallOf;
    if Lower(s) == word || SameWord(s, word) {
      forall i | 0 <= i < |s| ensures Lower(s)[i] == word[i] <==> SmallOf(s[i], word[i]) {
        LowerCharIs(s[i], word[i]);
      }
    }
  }

  function Lower(s: string): string {
    seq(|s|, i requires 0 <= i < |s| => LowerChar(s[i]))
  }

  /** First position of c at or after i, or the length of the text. */
  function Find(s: string, c: char, i: nat): (r: nat)
    requires i <= |s|
    ensures i <= r <= |s|
    ensures forall j :: i <= j < r ==> s[j] != c
    ensures r < |s| ==> s[r] == c
    decreases |s| - i
  {
    if i == |s| || s[i] == c then i else Find(s, c, i + 1)
  }

  // ---------------------------------------------------------------- digestParam

  function KeyText(raw: string): string {
    var k := Trim(raw);
    if k != "" && k[0] == ',' then Trim(k[1..]) else k
  }

  /** The value after the equals sign at p - 1, and the position after it; None when a quote is
      not closed. */
  datatype Scanned = Unclosed | Scanned(value: string, next: nat)

  function ScanValue(src: string, p: nat): (r: Scanned)
    requires p <= |src|
    ensures r.Scanned? ==> p <= r.next <= |src|
  {
    if p < |src| && src[p] == '"' then
      var end := Find(src, '"', p + 1);
      if end == |src| then Unclosed else Scanned(src[p + 1..end], end + 1)
    else
      var end := Find(src, ',', p);
      Scanned(Trim(src[p..end]), end)
  }

  function ParamFrom(src: string, key: string, pos: nat): string
    requires pos <= |src|
    decreases |src| - pos
  {
    if pos == |src| then ""
    else
      var eq := Find(src, '=', pos);
      if eq == |src| then ""
      else match ScanValue(src, eq + 1)
           case Unclosed => ""
           case Scanned(v, next) =>
             if Lower(KeyText(src[pos..eq])) == key then v else ParamFrom(src, key, next)
  }

  /** The quoted and the bare branch of the scan. */
  method ReadValue(src: string, p: nat) returns (r: Scanned)
    requires p <= |src|
    ensures r == ScanValue(src, p)
  {
    if p < |src| && src[p] == '"' {
      var end := Find(src, '"', p + 1);
      if end == |src| {
        return Unclosed;
      }
      return Scanned(src[p + 1..end], end + 1);
    }
    var end := Find(src, ',', p);
    return Scanned(Trim(src[p..end]), end);
  }

  method DigestParam(src: string, key: string) returns (v: string)
    ensures v == ParamFrom(src, key, 0)
  {
    hide KeyText, Lower, ScanValue, Find;
    var pos := 0;
    while pos < |src|
      invariant pos <= |src|
      invariant ParamFrom(src, key, 0) == ParamFrom(src, key, pos)
      decreases |src| - pos
    {
      var eq := Find(src, '=', pos);
      if eq == |src| {
        return "";
      }
      var k := KeyText(src[pos..eq]);
      var r := ReadValue(src, eq + 1);
      if r.Unclosed? {
        return "";
      }
      pos := r.next;
      if Lower(k) == key {
        return r.value;
      }
    }
    return "";
  }

  // ---------------------------------------------------------------- printed challenges

  ghost predicate Spaces(s: string) {
    forall i :: 0 <= i < |s| ==> s[i] in BLANKS
  }

  predicate Solid(s: string) {
    s == "" || (s[0] !in BLANKS && s[|s| - 1] !in BLANKS)
  }

  /** One parameter, with the optional white space before and after the comma that separates it
      from the one before. */
  datatype Param = Param(before: string, after: string, key: string, value: string, quoted: bool) {
    ghost predicate Valid() {
      && Spaces(before) && Spaces(after)
      && Solid(key) && key != "" && '=' !in key && ',' !in key
      && (if quoted then '"' !in value
          else ',' !in value && Solid(value) && (value == "" || value[0] != '"'))
    }

    /** The value as printed, and what follows it. */
    function ValueThen(rest: string): string {
      if quoted then "\"" + (value + ("\"" + rest)) else value + rest
    }

    /** The separator in front of this parameter, and what follows it. */
    function SeparatorThen(rest: string): string {
      before + ("," + (after + rest))
    }
  }

  /** The list from its first key on. */
  function Print(ps: seq<Param>): string
    decreases |ps|, 1
  {
    if ps == [] then "" else ps[0].key + ("=" + ps[0].ValueThen(PrintRest(ps)))
  }

  /** What follows the first value. */
  function PrintRest(ps: seq<Param>): string
    requires ps != []
    decreases |ps|, 0
  {
    if |ps| == 1 then "" else ps[1].SeparatorThen(Print(ps[1..]))
  }

  /** The first value stored under the key, or empty. */
  function FirstValue(ps: seq<Param>, key: string): string {
    if ps == [] then ""
    else if SameWord(ps[0].key, key) then ps[0].value
    else FirstValue(ps[1..], key)
  }

  lemma {:induction false} TrimLeftSpaces(w: string, s: string)
    requires Spaces(w) && (s == "" || !IsSpace(s[0]))
    ensures TrimLeft(w + s) == s
  {
    if w == "" {
      assert w + s == s;
    } else {
      TrimLeftSpaces(w[1..], s);
      assert (w + s)[1..] == w[1..] + s;
    }
  }

  lemma {:induction false} TrimRightSpaces(s: string, w: string)
    requires Spaces(w) && (s == "" || !IsSpace(s[|s| - 1]))
    ensures TrimRight(s + w) == s
  {
    if w == "" {
      assert s + w == s;
    } else {
      TrimRightSpaces(s, w[..|w| - 1]);
      assert (s + w)[..|s + w| - 1] == s + w[..|w| - 1];
    }
  }

  lemma TrimSolid(u: string, s: string, w: string)
    requires Spaces(u) && Solid(s) && Spaces(w)
    ensures Trim(u + s + w) == s
  {
    hide TrimLeft, TrimRight;
    if s == "" {
      TrimLeftSpaces(u + w, "");
      TrimRightSpaces("", "");
      assert u + s + w == (u + w) + "";
      assert "" + "" == "";
    } else {
      TrimLeftSpaces(u, s + w);
      TrimRightSpaces(s, w);
      assert u + s + w == u + (s + w);
    }
  }

  /** What may stand in front of a key: white space, or a comma with white space around it. */
  datatype Gap = Gap(before: string, comma: bool, after: string) {
    ghost predicate Valid() { Spaces(before) && Spaces(after) }
    function Text(): string { if comma then before + "," + after else after }
    function Then(rest: string): string {
      if comma then before + ("," + (after + rest)) else after + rest
    }
  }

  lemma GapThen(g: Gap, x: string, y: string)
    ensures g.Then(x + y) == (g.Text() + x) + y
  {
  }

  lemma KeyAfterGap(g: Gap, key: string)
    requires g.Valid() && Solid(key) && key != "" && key[0] != ','
    ensures KeyText(g.Text() + key) == key
  {
    hide Trim;
    if g.comma {
      var inner := "," + g.after + key;
      TrimSolid(g.before, inner, "");
      assert g.Text() + key == g.before + inner + "";
      TrimSolid(g.after, key, "");
      assert inner[1..] == g.after + key + "";
    } else {
      TrimSolid(g.after, key, "");
      assert g.Text() + key == g.after + key + "";
    }
  }

  lemma FindIs(s: string, c: char, i: nat, x: string, y: string)
    requires i <= |s| && s[i..] == x + y && c !in x && (y == "" || y[0] == c)
    ensures Find(s, c, i) == i + |x| <= |s|
  {
    assert |s| == i + |x| + |y|;
    forall j | i <= j < i + |x| ensures s[j] != c {
      assert s[j] == s[i..][j - i] == x[j - i];
    }
    if y != "" {
      assert s[i + |x|] == s[i..][|x|] == y[0];
    }
  }

  lemma Shift(s: string, i: nat, x: string, y: string)
    requires i <= |s| && s[i..] == x + y
    ensures i + |x| <= |s| && s[i..i + |x|] == x && s[i + |x|..] == y
  {
    assert s[i..i + |x|] == (x + y)[..|x|];
    assert s[i + |x|..] == (x + y)[|x|..];
  }

  /** After a bare value the scan stops at the comma, after a quoted one at the quote. */
  function NextGap(ps: seq<Param>): Gap
    requires |ps| > 1
  {
    Gap(if ps[0].quoted then ps[1].before else "", true, ps[1].after)
  }

  lemma ScanQuoted(src: string, p: nat, v: string, rest: string)
    requires p <= |src| && src[p..] == "\"" + (v + ("\"" + rest)) && '"' !in v
    ensures p + 2 + |v| <= |src|
    ensures ScanValue(src, p) == Scanned(v, p + 2 + |v|) && src[p + 2 + |v|..] == rest
  {
    hide Find, Trim;
    Shift(src, p, "\"", v + ("\"" + rest));
    assert src[p] == src[p..p + 1][0];
    FindIs(src, '"', p + 1, v, "\"" + rest);
    Shift(src, p + 1, v, "\"" + rest);
    Shift(src, p + 1 + |v|, "\"", rest);
  }

  lemma ScanBare(src: string, p: nat, v: string, w: string, tail: string)
    requires p <= |src| && src[p..] == v + (w + tail)
    requires ',' !in v && Solid(v) && (v == "" || v[0] != '"') && Spaces(w)
    requires tail == "" || tail[0] == ','
    ensures p + |v + w| <= |src|
    ensures ScanValue(src, p) == Scanned(v, p + |v + w|) && src[p + |v + w|..] == tail
  {
    hide Find, Trim;
    assert v + (w + tail) == (v + w) + tail;
    FindIs(src, ',', p, v + w, tail);
    Shift(src, p, v + w, tail);
    TrimSolid("", v, w);
    assert "" + v + w == v + w;
    if p < |src| {
      assert src[p] == ((v + w) + tail)[0];
    }
  }

  lemma ScanPrinted(src: string, p: nat, ps: seq<Param>)
    requires ps != [] && ps[0].Valid() && (|ps| > 1 ==> ps[1].Valid())
    requires p <= |src| && src[p..] == ps[0].ValueThen(PrintRest(ps))
    ensures var r := ScanValue(src, p);
            && r.Scanned? && r.value == ps[0].value
            && src[r.next..] == if |ps| == 1 then "" else NextGap(ps).Then(Print(ps[1..]))
  {
    hide Print, ScanValue, PrintRest, NextGap;
    if ps[0].quoted {
      ScanPrintedQuoted(src, p, ps);
    } else {
      ScanPrintedBare(src, p, ps);
    }
  }

  lemma ScanPrintedQuoted(src: string, p: nat, ps: seq<Param>)
    requires ps != [] && ps[0].quoted && '"' !in ps[0].value
    requires p <= |src| && src[p..] == ps[0].ValueThen(PrintRest(ps))
    ensures var r := ScanValue(src, p);
            && r.Scanned? && r.value == ps[0].value
            && src[r.next..] == if |ps| == 1 then "" else NextGap(ps).Then(Print(ps[1..]))
  {
    RestIsGap(ps);
    assert ps[0].ValueThen(PrintRest(ps)) == "\"" + (ps[0].value + ("\"" + PrintRest(ps)));
    hide Print, ScanValue, PrintRest, NextGap;
    ScanQuoted(src, p, ps[0].value, PrintRest(ps));
  }

  lemma RestIsGap(ps: seq<Param>)
    requires ps != [] && ps[0].quoted
    ensures PrintRest(ps) == if |ps| == 1 then "" else NextGap(ps).Then(Print(ps[1..]))
  {
    hide Print;
  }

  lemma ScanPrintedBare(src: string, p: nat, ps: seq<Param>)
    requires ps != [] && ps[0].Valid() && !ps[0].quoted && (|ps| > 1 ==> Spaces(ps[1].before))
    requires p <= |src| && src[p..] == ps[0].ValueThen(PrintRest(ps))
    ensures var r := ScanValue(src, p);
            && r.Scanned? && r.value == ps[0].value
            && src[r.next..] == if |ps| == 1 then "" else NextGap(ps).Then(Print(ps[1..]))
  {
    hide Print, ScanValue;
    if |ps| == 1 {
      assert "" + "" == "";
      ScanBare(src, p, ps[0].value, "", "");
    } else {
      ScanBareThen(src, p, ps[0].value, ps[1].before, ps[1].after, Print(ps[1..]));
    }
  }

  lemma ScanBareThen(src: string, p: nat, v: string, w: string, after: string, rest: string)
    requires p <= |src| && src[p..] == v + (w + ("," + (after + rest)))
    requires ',' !in v && Solid(v) && (v == "" || v[0] != '"') && Spaces(w)
    ensures p + |v + w| <= |src|
    ensures ScanValue(src, p) == Scanned(v, p + |v + w|)
    ensures src[p + |v + w|..] == Gap("", true, after).Then(rest)
  {
    hide ScanValue;
    var tail := "," + (after + rest);
    ScanBare(src, p, v, w, tail);
    assert "" + tail == tail;
  }

  lemma KeyStep(src: string, pos: nat, g: Gap, key: string, val: string)
    requires g.Valid() && Solid(key) && key != "" && '=' !in key && key[0] != ','
    requires pos <= |src| && src[pos..] == g.Then(key + ("=" + val))
    ensures var eq := pos + |g.Text() + key|;
            && eq < |src| && Find(src, '=', pos) == eq && KeyText(src[pos..eq]) == key
            && src[eq + 1..] == val
  {
    hide Find, KeyText;
    GapThen(g, key, "=" + val);
    NoEquals(g, key);
    KeyAfterGap(g, key);
    var x := g.Text() + key;
    FindIs(src, '=', pos, x, "=" + val);
    Shift(src, pos, x, "=" + val);
    Shift(src, pos + |x|, "=", val);
  }

  lemma NoEquals(g: Gap, key: string)
    requires g.Valid() && '=' !in key
    ensures '=' !in g.Text() + key
  {
  }

  lemma {:induction false} ParamFromPrinted(src: string, key: string, pos: nat, g: Gap, ps: seq<Param>)
    requires ps != [] && AllValid(ps) && g.Valid()
    requires pos <= |src| && src[pos..] == g.Then(Print(ps))
    ensures ParamFrom(src, key, pos) == FirstValue(ps, key)
    decreases |ps|
  {
    hide Lower, SameWord, KeyText, ScanValue, Find, ParamFrom, Print, PrintRest, Spaces, Solid, AllValid;
    var p := ps[0];
    LowerIs(p.key, key);
    ValidStep(ps);
    PrintStep(ps);
    KeyStep(src, pos, g, p.key, p.ValueThen(PrintRest(ps)));
    var eq := pos + |g.Text() + p.key|;
    ScanPrinted(src, eq + 1, ps);
    ParamStep(src, key, pos, eq);
    if |ps| > 1 {
      ParamFromPrinted(src, key, ScanValue(src, eq + 1).next, NextGap(ps), ps[1..]);
    }
  }

  ghost predicate AllValid(ps: seq<Param>) {
    forall p :: p in ps ==> p.Valid()
  }

  lemma ValidStep(ps: seq<Param>)
    requires ps != [] && AllValid(ps)
    ensures ps[0].Valid() && AllValid(ps[1..]) && ps[0].key[0] != ','
    ensures |ps| > 1 ==> ps[1].Valid() && NextGap(ps).Valid()
  {
    assert ps[0] in ps && (|ps| > 1 ==> ps[1] in ps);
  }

  lemma PrintStep(ps: seq<Param>)
    requires ps != []
    ensures Print(ps) == ps[0].key + ("=" + ps[0].ValueThen(PrintRest(ps)))
  {
  }

  lemma ParamStep(src: string, key: string, pos: nat, eq: nat)
    requires pos <= eq < |src| && Find(src, '=', pos) == eq && ScanValue(src, eq + 1).Scanned?
    ensures var r := ScanValue(src, eq + 1);
            && (Lower(KeyText(src[pos..eq])) == key ==> ParamFrom(src, key, pos) == r.value)
            && (Lower(KeyText(src[pos..eq])) != key ==>
                  ParamFrom(src, key, pos) == ParamFrom(src, key, r.next))
            && (r.next == |src| ==> ParamFrom(src, key, r.next) == "")
  {
    hide Lower, KeyText, ScanValue, Find;
  }

  /** For every list of parameters, printed with any mix of quoted values (which may hold commas
      and equals signs) and bare ones, the first value under the asked key is returned, or empty
      when there is none. */
  lemma DigestParamOfPrinted(ps: seq<Param>, lead: string, key: string)
    requires ps != [] && AllValid(ps) && Spaces(lead)
    ensures ParamFrom(lead + Print(ps), key, 0) == FirstValue(ps, key)
  {
    var src, g := lead + Print(ps), Gap("", false, lead);
    assert src[0..] == src == g.Then(Print(ps));
    ParamFromPrinted(src, key, 0, g, ps);
  }

  // ---------------------------------------------------------------- the challenge header

  /** The parameters of a challenge that the transport keeps. */
  datatype Challenge = Challenge(realm: string, nonce: string, opaqueValue: string, qop: string, md5Sess: bool)

  function ParamsOf(header: string): Option<string> {
    var text := Trim(header);
    if |text| < 6 || Lower(text[..6]) != "digest" then None else Some(Trim(text[6..]))
  }

  /** parseChallenge: nothing without the scheme or without a nonce. */
  function ParseChallenge(header: string): (r: Option<Challenge>)
    ensures r.Some? ==> r.value.nonce != ""
  {
    match ParamsOf(header)
    case None => None
    case Some(params) =>
      if ParamFrom(params, "nonce", 0) == "" then None
      else Some(Challenge(ParamFrom(params, "realm", 0), ParamFrom(params, "nonce", 0),
                          ParamFrom(params, "opaque", 0), ParamFrom(params, "qop", 0),
                          Lower(ParamFrom(params, "algorithm", 0)) == "md5-sess"))
  }

  method ReadChallenge(header: string) returns (r: Option<Challenge>)
    ensures r == ParseChallenge(header)
  {
    hide ParamsOf, ParamFrom, Lower;
    var params := ParamsOf(header);
    if params.None? {
      return None;
    }
    var realm := DigestParam(params.value, "realm");
    var nonce := DigestParam(params.value, "nonce");
    if nonce == "" {
      return None;
    }
    var opaqueValue := DigestParam(params.value, "opaque");
    var qop := DigestParam(params.value, "qop");
    var algorithm := DigestParam(params.value, "algorithm");
    r := Some(Challenge(realm, nonce, opaqueValue, qop, Lower(algorithm) == "md5-sess"));
  }

  lemma {:induction false} PrintIsSolid(ps: seq<Param>)
    requires ps != [] && AllValid(ps)
    ensures Print(ps) != "" && Solid(Print(ps))
    decreases |ps|
  {
    var p := ps[0];
    ValidStep(ps);
    PrintStep(ps);
    hide AllValid;
    if |ps| > 1 {
      PrintIsSolid(ps[1..]);
      var rest := ps[1].SeparatorThen(Print(ps[1..]));
      hide Print;
      assert rest[|rest| - 1] == Print(ps[1..])[|Print(ps[1..])| - 1];
      LastOfValue(p, rest);
    } else {
      LastOfValue(p, "");
    }
  }

  lemma LastOfValue(p: Param, rest: string)
    requires p.Valid() && (rest != "" ==> !IsSpace(rest[|rest| - 1]))
    ensures Solid(p.key + ("=" + p.ValueThen(rest)))
  {
    var v := p.ValueThen(rest);
    assert v != "" ==> !IsSpace(v[|v| - 1]);
  }

  /** For every list of parameters, printed behind the scheme and with any white space around it, the
      transport reads the first value of each parameter it asks for. Scheme, keys and the algorithm
      are compared letter by letter in either case. */
  lemma ChallengeOfPrinted(before: string, scheme: string, lead: string, ps: seq<Param>, after: string)
    requires Spaces(before) && SameWord(scheme, "digest") && Spaces(lead) && Spaces(after)
    requires ps != [] && AllValid(ps)
    ensures var header := before + (scheme + lead + Print(ps)) + after;
            ParseChallenge(header) ==
            if FirstValue(ps, "nonce") == "" then None
            else Some(Challenge(FirstValue(ps, "realm"), FirstValue(ps, "nonce"), FirstValue(ps, "opaque"),
                                FirstValue(ps, "qop"), SameWord(FirstValue(ps, "algorithm"), "md5-sess")))
  {
    LowerIs(scheme, "digest");
    LowerIs(FirstValue(ps, "algorithm"), "md5-sess");
    ParamsOfPrinted(before, scheme, lead, ps, after);
    hide Print, AllValid, ParamsOf, ParamFrom, FirstValue, Lower, SameWord;
    var params := Print(ps);
    assert "" + params == params;
    DigestParamOfPrinted(ps, "", "nonce");
    DigestParamOfPrinted(ps, "", "realm");
    DigestParamOfPrinted(ps, "", "opaque");
    DigestParamOfPrinted(ps, "", "qop");
    DigestParamOfPrinted(ps, "", "algorithm");
  }

  lemma ParamsOfPrinted(before: string, scheme: string, lead: string, ps: seq<Param>, after: string)
    requires Spaces(before) && Lower(scheme) == "digest" && Spaces(lead) && Spaces(after)
    requires ps != [] && AllValid(ps)
    ensures ParamsOf(before + (scheme + lead + Print(ps)) + after) == Some(Print(ps))
  {
    PrintIsSolid(ps);
    hide Print, AllValid, ParamsOf, Lower;
    ParamsBehindScheme(before, scheme, lead, Print(ps), after);
  }

  lemma ParamsBehindScheme(before: string, scheme: string, lead: string, params: string, after: string)
    requires Spaces(before) && Lower(scheme) == "digest" && Spaces(lead) && Spaces(after)
    requires params != "" && Solid(params)
    ensures ParamsOf(before + (scheme + lead + params) + after) == Some(params)
  {
    hide Trim, Lower, Spaces;
    var text := scheme + lead + params;
    SchemeIsSolid(scheme, lead + params);
    assert scheme + (lead + params) == text;
    hide Solid;
    TrimSolid(before, text, after);
    assert text[..6] == scheme && text[6..] == lead + params + "";
    TrimSolid(lead, params, "") by { NoSpaces(); }
  }

  lemma NoSpaces()
    ensures Spaces("")
  {
  }

  lemma SchemeIsSolid(scheme: string, rest: string)
    requires Lower(scheme) == "digest" && rest != "" && !IsSpace(rest[|rest| - 1])
    ensures |scheme| == 6 && Solid(scheme + rest)
  {
    assert |scheme| == |Lower(scheme)| == 6;
    assert LowerChar(scheme[0]) == Lower(scheme)[0] == 'd';
  }

  // ---------------------------------------------------------------- the quality of protection

  /** The comma-separated offers. */
  function Offers(qop: string, from: nat): (r: seq<string>)
    requires from <= |qop|
    ensures r != []
    decreases |qop| - from
  {
    var end := Find(qop, ',', from);
    if end == |qop| then [qop[from..]] else [qop[from..end]] + Offers(qop, end + 1)
  }

  predicate IsAuth(offer: string) {
    Lower(Trim(offer)) == "auth"
  }

  /** What buildAuthorization answers with: auth when it is offered, else the first offer. */
  function ChosenQop(qop: string): string {
    if qop == "" then ""
    else if exists i :: 0 <= i < |Offers(qop, 0)| && IsAuth(Offers(qop, 0)[i]) then "auth"
    else Trim(Offers(qop, 0)[0])
  }

  method ChooseQop(qop: string) returns (r: string)
    ensures r == ChosenQop(qop)
  {
    if qop == "" {
      return "";
    }
    hide Trim, Lower, Offers;
    var offers := Offers(qop, 0);
    for i := 0 to |offers|
      invariant forall j :: 0 <= j < i ==> !IsAuth(offers[j])
    {
      if Lower(Trim(offers[i])) == "auth" {
        return "auth";
      }
    }
    r := Trim(offers[0]);
  }

  function Joined(offers: seq<string>): string
    requires offers != []
  {
    if |offers| == 1 then offers[0] else offers[0] + ("," + Joined(offers[1..]))
  }

  /** Every list of offers without commas, joined by commas, is split into that list. */
  lemma {:induction false} OffersOfJoined(qop: string, from: nat, offers: seq<string>)
    requires offers != [] && forall i :: 0 <= i < |offers| ==> ',' !in offers[i]
    requires from <= |qop| && qop[from..] == Joined(offers)
    ensures Offers(qop, from) == offers
    decreases |offers|
  {
    hide Find, Offers;
    if |offers| == 1 {
      LastOffer(qop, from, offers[0]);
    } else {
      NextOffer(qop, from, offers[0], Joined(offers[1..]));
      OffersOfJoined(qop, from + |offers[0]| + 1, offers[1..]);
    }
  }

  lemma LastOffer(qop: string, from: nat, x: string)
    requires from <= |qop| && qop[from..] == x && ',' !in x
    ensures Offers(qop, from) == [x]
  {
    assert x + "" == x;
    FindIs(qop, ',', from, x, "");
  }

  lemma NextOffer(qop: string, from: nat, x: string, rest: string)
    requires from <= |qop| && qop[from..] == x + ("," + rest) && ',' !in x
    ensures var next := from + |x| + 1;
            next <= |qop| && qop[next..] == rest && Offers(qop, from) == [x] + Offers(qop, next)
  {
    OfferLayout(qop, from, x, rest);
    FindIs(qop, ',', from, x, "," + rest);
    hide Find;
  }

  lemma OfferLayout(qop: string, from: nat, x: string, rest: string)
    requires from <= |qop| && qop[from..] == x + ("," + rest)
    ensures from + |x| + 1 <= |qop|
    ensures qop[from..from + |x|] == x && qop[from + |x| + 1..] == rest
  {
    assert |qop| == from + |x| + 1 + |rest|;
    assert qop[from..from + |x|] == qop[from..][..|x|];
    assert qop[from + |x| + 1..] == qop[from..][|x| + 1..];
  }

  /** What is chosen from a printed list: `auth` exactly when offered, else the first offer. */
  lemma ChosenOfJoined(offers: seq<string>)
    requires offers != [] && forall i :: 0 <= i < |offers| ==> ',' !in offers[i]
    requires Joined(offers) != ""
    ensures ChosenQop(Joined(offers))
            == if exists i :: 0 <= i < |offers| && IsAuth(offers[i]) then "auth" else Trim(offers[0])
  {
    hide Joined, Offers, IsAuth, Trim;
    OffersOfJoined(Joined(offers), 0, offers);
  }

  /** One offer with white space around it. */
  datatype Offer = Offer(before: string, word: string, after: string) {
    ghost predicate Valid() {
      Spaces(before) && Solid(word) && Spaces(after) && ',' !in word
    }
    function Text(): string { before + word + after }
  }

  lemma OfferIsAuth(o: Offer)
    requires o.Valid()
    ensures Trim(o.Text()) == o.word && (IsAuth(o.Text()) <==> SameWord(o.word, "auth"))
  {
    hide Trim, Lower, SameWord;
    TrimSolid(o.before, o.word, o.after);
    LowerIs(o.word, "auth");
  }

  lemma OfferHasNoComma(o: Offer)
    requires o.Valid()
    ensures ',' !in o.Text()
  {
  }

  function OfferTexts(offers: seq<Offer>): seq<string> {
    seq(|offers|, i requires 0 <= i < |offers| => offers[i].Text())
  }

  /** For every printed list of offers, the word auth is chosen when one of them is that word, letter by
      letter in either case; otherwise the first word. */
  lemma ChosenOfPrinted(offers: seq<Offer>)
    requires offers != [] && forall i :: 0 <= i < |offers| ==> offers[i].Valid()
    requires Joined(OfferTexts(offers)) != ""
    ensures ChosenQop(Joined(OfferTexts(offers)))
            == if exists i :: 0 <= i < |offers| && SameWord(offers[i].word, "auth") then "auth" else offers[0].word
  {
    hide Joined, IsAuth, Trim, SameWord, ChosenQop, Spaces, Solid;
    var texts := OfferTexts(offers);
    forall i | 0 <= i < |texts|
      ensures ',' !in texts[i] && Trim(texts[i]) == offers[i].word
      ensures IsAuth(texts[i]) <==> SameWord(offers[i].word, "auth")
    {
      OfferIsAuth(offers[i]);
      OfferHasNoComma(offers[i]);
    }
    ChosenOfJoined(texts);
    if i :| 0 <= i < |offers| && SameWord(offers[i].word, "auth") {
      assert IsAuth(texts[i]);
    }
  }

  // ---------------------------------------------------------------- the nonce count

  type digit = d: int | 0 <= d <= 9

  /** Decimal digits of n. */
  function Decimal(n: nat): seq<digit> {
    if n < 10 then [n] else Decimal(n / 10) + [n % 10]
  }

  /** rightJustified(8, '0'). */
  function CountText(n: nat): seq<digit> {
    var d := Decimal(n);
    if |d| >= 8 then d else seq(8 - |d|, _ => 0) + d
  }

  /** The text read as a hexadecimal number, as section 3.2.2 of RFC 2617 defines nc-value. */
  function AsHex(t: seq<digit>): nat {
    if t == [] then 0 else 16 * AsHex(t[..|t| - 1]) + t[|t| - 1]
  }

  function HexOfDecimal(n: nat): nat {
    if n < 10 then n else 16 * HexOfDecimal(n / 10) + n % 10
  }

  lemma {:induction false} AsHexOfDecimal(n: nat)
    ensures AsHex(Decimal(n)) == HexOfDecimal(n)
  {
    var t := Decimal(n);
    if n < 10 {
      assert t[..0] == [];
    } else {
      AsHexOfDecimal(n / 10);
      assert t[..|t| - 1] == Decimal(n / 10);
    }
  }

  lemma {:induction false} AsHexPadded(k: nat, t: seq<digit>)
    ensures AsHex(seq(k, _ => 0) + t) == AsHex(t)
  {
    var pad: seq<digit> := seq(k, _ => 0);
    if t == [] {
      assert pad + t == pad;
      AsHexZeros(k);
    } else {
      AsHexPadded(k, t[..|t| - 1]);
      assert (pad + t)[..|pad + t| - 1] == pad + t[..|t| - 1];
    }
  }

  lemma {:induction false} AsHexZeros(k: nat)
    ensures AsHex(seq(k, _ => 0)) == 0
  {
    if k > 0 {
      AsHexZeros(k - 1);
      var pad: seq<digit> := seq(k, _ => 0);
      assert pad[..k - 1] == seq(k - 1, _ => 0);
    }
  }

  lemma {:induction false} HexOfDecimalIncreases(m: nat, n: nat)
    requires m < n
    ensures HexOfDecimal(m) < HexOfDecimal(n)
    decreases n
  {
    if n >= 10 && m / 10 < n / 10 {
      HexOfDecimalIncreases(m / 10, n / 10);
      assert HexOfDecimal(m) <= 16 * HexOfDecimal(m / 10) + 9;
    }
  }

  lemma CountTextAsHex(n: nat)
    ensures AsHex(CountText(n)) == HexOfDecimal(n)
  {
    AsHexOfDecimal(n);
    if |Decimal(n)| < 8 {
      AsHexPadded(8 - |Decimal(n)|, Decimal(n));
    }
  }

  /** Although the count is printed in decimal, a server that reads it as hexadecimal still sees
      it grow with every request. */
  lemma CountTextIncreases(m: nat, n: nat)
    requires m < n
    ensures AsHex(CountText(m)) < AsHex(CountText(n))
  {
    CountTextAsHex(m);
    CountTextAsHex(n);
    HexOfDecimalIncreases(m, n);
  }

  /** It reads the number of requests itself exactly for the first nine. */
  lemma CountTextExact(n: nat)
    ensures AsHex(CountText(n)) == n <==> n < 10
  {
    CountTextAsHex(n);
    if n >= 10 {
      HexAtLeast(n / 10);
    }
  }

  lemma {:induction false} HexAtLeast(n: nat)
    ensures HexOfDecimal(n) >= n
  {
    if n >= 10 {
      HexAtLeast(n / 10);
    }
  }

  /** The text read as a decimal number. */
  function AsDecimal(t: seq<digit>): nat {
    if t == [] then 0 else 10 * AsDecimal(t[..|t| - 1]) + t[|t| - 1]
  }

  lemma {:induction false} DecimalIs(n: nat)
    ensures var t := Decimal(n); AsDecimal(t) == n && t != [] && (t[0] == 0 ==> n == 0)
  {
    var t := Decimal(n);
    if n < 10 {
      assert t[..0] == [];
    } else {
      DecimalIs(n / 10);
      assert t[..|t| - 1] == Decimal(n / 10);
    }
  }

  lemma {:induction false} AsDecimalPadded(k: nat, t: seq<digit>)
    ensures AsDecimal(seq(k, _ => 0) + t) == AsDecimal(t)
    decreases |t|, k
  {
    var pad: seq<digit> := seq(k, _ => 0);
    if t != [] {
      AsDecimalPadded(k, t[..|t| - 1]);
      assert (pad + t)[..|pad + t| - 1] == pad + t[..|t| - 1];
    } else if k > 0 {
      AsDecimalPadded(k - 1, []);
      assert (pad + t)[..k - 1] == seq(k - 1, _ => 0) + [];
    }
  }

  /** What the count text is: the decimal number, padded with zeros to eight digits and no further. */
  lemma CountTextIs(n: nat)
    ensures var t := CountText(n); AsDecimal(t) == n && |t| >= 8 && (|t| > 8 ==> t[0] != 0)
  {
    DecimalIs(n);
    if |Decimal(n)| < 8 {
      AsDecimalPadded(8 - |Decimal(n)|, Decimal(n));
    }
  }
}
