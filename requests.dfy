/**
 * Field extraction from one access-log line of the form
 *   host - - [timestamp] "method resource protocol" reply_code reply_bytes
 * (the `Request` constructor of process_log.py; identical in both copies of
 * the script except for the characters accepted as quotes).
 */
module Requests {
  import opened Wrappers
  import opened Text
  import opened Instants

  /** What `re.split` cuts the host off at. */
  const HostSep := " - - "

  /** Quote characters around the request field: the ASCII quote only ... */
  const SrcQuotes: set<char> := {'"'}
  /** ... or, in the later copy, also the typographic double quotes U+201C and U+201D. */
  const TempQuotes: set<char> := {'"', '\U{201C}', '\U{201D}'}

  /** What the round trip needs of a quote class: it has the ASCII quote and none of the layout characters. */
  predicate QuoteClass(quotes: set<char>)
  {
    '"' in quotes && ' ' !in quotes && '-' !in quotes && '[' !in quotes && ']' !in quotes && '\n' !in quotes
  }

  /** One parsed log line. `instant` is the parsed timestamp in whole seconds. */
  datatype Request = Request(
    host: string,
    timestamp: string,
    instant: Instant,
    httpMethod: Option<string>,
    resource: Option<string>,
    protocol: Option<string>,
    replyCode: nat,
    replyBytes: nat)

  /** The exceptions the constructor lets escape, in the order it can raise them. */
  datatype ParseError =
    | NoTimestamp    // no `[...]` segment: the regex search returns None
    | BadTimestamp   // the date parser rejects the timestamp text
    | NoReplyCode    // fewer than two space-separated tokens
    | BadReplyCode   // the second-to-last token is not a number
    | BadReplyBytes  // the last token is neither '-' nor a number

  /** The separator `HostSep` starts at position `k` of the line. */
  predicate SepAt(line: string, k: nat)
  {
    k + 4 < |line| && line[k] == ' ' && line[k + 1] == '-' && line[k + 2] == ' ' && line[k + 3] == '-' && line[k + 4] == ' '
  }

  function FirstSep(line: string, from: nat): (k: nat)
    requires from <= |line|
    ensures from <= k <= |line|
    ensures k == |line| || SepAt(line, k)
    ensures forall j :: from <= j < k ==> !SepAt(line, j)
    decreases |line| - from
  {
    if from == |line| || SepAt(line, from) then from else FirstSep(line, from + 1)
  }

  /**
   * `re.split(' - - ', line)[0]`: the text before the first separator, or the
   * whole line when there is none.
   */
  function Host(line: string): (h: string)
    ensures |h| <= |line| && h == line[..|h|]
    ensures |h| == |line| || SepAt(line, |h|)
    ensures forall k :: 0 <= k < |h| ==> !SepAt(line, k)
  {
    line[..FirstSep(line, 0)]
  }

  /**
   * Where the lazy pattern `<open>(.*?)<close>` matches in a line without line
   * breaks: the first opening character, and the first closing character after
   * it. The captured group lies strictly between the two positions.
   */
  function Span(line: string, open: set<char>, close: set<char>): (r: Option<(nat, nat)>)
    ensures r.Some? ==> r.value.0 < r.value.1 < |line|
  {
    match FirstIn(line, open, 0)
    case None => None
    case Some(a) =>
      match FirstIn(line, close, a + 1)
      case None => None
      case Some(b) => Some((a, b))
  }

  /** A match is an opening character, then the first closing character after it; there is no match only when no closing character follows any opening one. */
  lemma SpanMatches(line: string, open: set<char>, close: set<char>)
    ensures var r := Span(line, open, close);
      && (r.Some? ==> r.value.0 < r.value.1 < |line| && line[r.value.0] in open && line[r.value.1] in close)
      && (r.Some? ==> forall k :: 0 <= k < r.value.0 ==> line[k] !in open)
      && (r.Some? ==> forall k :: r.value.0 < k < r.value.1 ==> line[k] !in close)
      && (r.None? ==> forall a, b :: 0 <= a < b < |line| && line[a] in open ==> line[b] !in close)
  {
    if Span(line, open, close).None? {
      forall a, b | 0 <= a < b < |line| && line[a] in open ensures line[b] !in close {
        var first := FirstIn(line, open, 0);
        assert first.Some? && first.value <= a;
      }
    }
  }

  /** The text handed to the date parser: every '/' and the first ':' become spaces. */
  function DateText(timestamp: string): string
  {
    ReplaceFirst(ReplaceAll(timestamp, '/', ' '), ':', ' ')
  }

  /** The space-separated words of the first quoted segment, if there is one. */
  function RequestWords(line: string, quotes: set<char>): Option<seq<string>>
  {
    match Span(line, quotes, quotes)
    case None => None
    case Some((a, b)) => Some(Split(line[a + 1..b], ' '))
  }

  /** `request.split(' ')[k]`, with every failure (no request, too few words) mapped to None. */
  function Word(words: Option<seq<string>>, k: nat): Option<string>
  {
    if words.Some? && k < |words.value| then Some(words.value[k]) else None
  }

  /**
   * Parses one line (already stripped, so without line breaks). `quotes` is the
   * quote class of the request regex; `parseDate` stands for the external date
   * parser applied to `DateText` of the timestamp. The timestamp is missing
   * exactly when no `[...]` segment exists; a parsed request has at least two
   * tokens; its method is present exactly when a quoted segment exists; the
   * first three words of that segment fill method, resource and protocol in
   * order, each missing word giving `None`; and no request word holds a space.
   */
  function Parse(line: string, quotes: set<char>, parseDate: string -> Option<Instant>): (r: Result<Request, ParseError>)
    requires '\n' !in line
    ensures r == Failure(NoTimestamp) <==> Span(line, {'['}, {']'}).None?
    ensures r.Success? ==> |Split(line, ' ')| >= 2
    ensures r.Success? ==> (r.value.httpMethod.Some? <==> Span(line, quotes, quotes).Some?)
    ensures r.Success? ==> (r.value.resource.Some? ==> r.value.httpMethod.Some?)
    ensures r.Success? ==> (r.value.protocol.Some? ==> r.value.resource.Some?)
    ensures r.Success? && r.value.resource.Some? ==> ' ' !in r.value.resource.value
    ensures r.Success? ==>
      match Span(line, quotes, quotes)
      case None => r.value.httpMethod.None? && r.value.resource.None? && r.value.protocol.None?
      case Some((a, b)) =>
        var w := Split(line[a + 1..b], ' ');
        && r.value.httpMethod == Some(w[0])
        && r.value.resource == (if |w| > 1 then Some(w[1]) else None)
        && r.value.protocol == (if |w| > 2 then Some(w[2]) else None)
  {
    var words := RequestWords(line, quotes);
    var r := Assemble(Host(line), Timestamp(line), words, Reply(Split(line, ' ')), parseDate);
    assert r.Success? && words.Some? && 1 < |words.value| ==> r.value.resource == Some(words.value[1]);
    r
  }

  /** The text between the first '[' and the first ']' after it. */
  function Timestamp(line: string): Option<string>
  {
    match Span(line, {'['}, {']'})
    case None => None
    case Some((a, b)) => Some(line[a + 1..b])
  }

  /** The request built from the pieces found in the line, or the first failure. */
  function Assemble(host: string, timestamp: Option<string>, words: Option<seq<string>>,
                    reply: Result<(nat, nat), ParseError>, parseDate: string -> Option<Instant>): Result<Request, ParseError>
  {
    match timestamp
    case None => Failure(NoTimestamp)
    case Some(ts) =>
      match parseDate(DateText(ts))
      case None => Failure(BadTimestamp)
      case Some(instant) =>
        match reply
        case Failure(e) => Failure(e)
        case Success((code, bytes)) =>
          Success(Request(host, ts, instant, Word(words, 0), Word(words, 1), Word(words, 2), code, bytes))
  }

  /**
   * The reply code and byte count from the last two space-separated tokens of
   * the line; a '-' byte count reads as 0.
   */
  function Reply(tokens: seq<string>): (r: Result<(nat, nat), ParseError>)
    ensures r == Failure(NoReplyCode) <==> |tokens| < 2
    ensures r.Success? <==> |tokens| >= 2 && IsDigits(tokens[|tokens| - 2]) &&
                            (tokens[|tokens| - 1] == "-" || IsDigits(tokens[|tokens| - 1]))
    ensures r.Success? && tokens[|tokens| - 1] == "-" ==> r.value.1 == 0
  {
    if |tokens| < 2 then Failure(NoReplyCode)
    else
      var codeToken, bytesToken := tokens[|tokens| - 2], tokens[|tokens| - 1];
      if !IsDigits(codeToken) then Failure(BadReplyCode)
      else if bytesToken != "-" && !IsDigits(bytesToken) then Failure(BadReplyBytes)
      else Success((DigitsValue(codeToken), if bytesToken == "-" then 0 else DigitsValue(bytesToken)))
  }

  /** No character of `s` is in `banned`. */
  predicate Plain(s: string, banned: set<char>)
  {
    forall k :: 0 <= k < |s| ==> s[k] !in banned
  }

  /** `host - - [timestamp] `: everything up to the opening quote. */
  function FormatHead(req: Request): string
  {
    req.host + HostSep + ['['] + req.timestamp + [']', ' ']
  }

  /** `method resource protocol`: what goes between the quotes. */
  function FormatWords(req: Request): string
    requires req.httpMethod.Some? && req.resource.Some? && req.protocol.Some?
  {
    req.httpMethod.value + [' '] + req.resource.value + [' '] + req.protocol.value
  }

  /** The head and the quoted request. */
  function FormatPrefix(req: Request): string
    requires req.httpMethod.Some? && req.resource.Some? && req.protocol.Some?
  {
    FormatHead(req) + ['"'] + FormatWords(req) + ['"']
  }

  /** The byte count as written: the number, or '-'. */
  function FormatBytes(req: Request, dashBytes: bool): string
  {
    if dashBytes then "-" else Decimal(req.replyBytes)
  }

  /**
   * The log line that a request with all three request words is written as;
   * `dashBytes` writes the byte count as '-'.
   */
  function Format(req: Request, dashBytes: bool): string
    requires req.httpMethod.Some? && req.resource.Some? && req.protocol.Some?
  {
    FormatPrefix(req) + [' '] + Decimal(req.replyCode) + [' '] + FormatBytes(req, dashBytes)
  }

  /** The requests that `Format` writes unambiguously. */
  predicate Formattable(req: Request, quotes: set<char>, parseDate: string -> Option<Instant>)
  {
    && req.httpMethod.Some? && req.resource.Some? && req.protocol.Some?
    && Plain(req.host, quotes + {' ', '[', '\n'})
    && Plain(req.timestamp, quotes + {']', '\n'})
    && Plain(req.httpMethod.value, quotes + {' ', '\n'})
    && Plain(req.resource.value, quotes + {' ', '\n'})
    && Plain(req.protocol.value, quotes + {' ', '\n'})
    && parseDate(DateText(req.timestamp)) == Some(req.instant)
  }

  /** The host is the text before a separator that has no separator before it. */
  lemma HostIs(line: string, n: nat)
    requires SepAt(line, n)
    requires forall k :: 0 <= k < n ==> !SepAt(line, k)
    ensures Host(line) == line[..n]
  {
    var h := Host(line);
    assert |h| <= n;
    assert |h| == n;
  }

  /** A match of the lazy pattern is determined by its two ends and the misses before them. */
  lemma SpanIs(line: string, open: set<char>, close: set<char>, a: nat, b: nat)
    requires a < b < |line| && line[a] in open && line[b] in close
    requires forall k :: 0 <= k < a ==> line[k] !in open
    requires forall k :: a < k < b ==> line[k] !in close
    ensures Span(line, open, close) == Some((a, b))
  {
    FirstInIs(line, open, 0, a);
    FirstInIs(line, close, a + 1, b);
  }

  /** The head, character by character. */
  lemma HeadChars(req: Request)
    ensures var head, n, t := FormatHead(req), |req.host|, |req.timestamp|;
      && |head| == n + 8 + t
      && (forall k :: 0 <= k < n ==> head[k] == req.host[k])
      && head[n] == ' ' && head[n + 1] == '-' && head[n + 2] == ' ' && head[n + 3] == '-' && head[n + 4] == ' '
      && head[n + 5] == '['
      && (forall i :: 0 <= i < t ==> head[n + 6 + i] == req.timestamp[i])
      && head[n + 6 + t] == ']' && head[n + 7 + t] == ' '
  {
    var a := req.host + HostSep + ['['];
    var n := |req.host|;
    assert |a| == n + 6;
    assert forall k :: 0 <= k < n ==> a[k] == req.host[k];
  }

  /** The words are unquoted and split back into the three request words. */
  lemma WordsSplit(req: Request, quotes: set<char>)
    requires ' ' !in quotes
    requires req.httpMethod.Some? && req.resource.Some? && req.protocol.Some?
    requires Plain(req.httpMethod.value, quotes + {' ', '\n'})
    requires Plain(req.resource.value, quotes + {' ', '\n'})
    requires Plain(req.protocol.value, quotes + {' ', '\n'})
    ensures Plain(FormatWords(req), quotes + {'\n'})
    ensures Plain(FormatWords(req), quotes)
    ensures Split(FormatWords(req), ' ') == [req.httpMethod.value, req.resource.value, req.protocol.value]
  {
    var m, r, p := req.httpMethod.value, req.resource.value, req.protocol.value;
    var words := FormatWords(req);
    forall k | 0 <= k < |words| ensures words[k] !in quotes + {'\n'} {
      if k < |m| { assert words[k] == m[k]; }
      else if |m| < k < |m| + 1 + |r| { assert words[k] == r[k - |m| - 1]; }
      else if |m| + 1 + |r| < k { assert words[k] == p[k - |m| - |r| - 2]; }
    }
    assert ' ' !in m && ' ' !in r && ' ' !in p;
    JoinThree(m, r, p, ' ');
    SplitJoin([m, r, p], ' ');
  }

  lemma JoinThree(a: string, b: string, c: string, sep: char)
    ensures Join([a, b, c], sep) == a + [sep] + b + [sep] + c
  {
    assert [a, b, c][1..] == [b, c];
    assert [b, c][1..] == [c];
    assert Join([b, c], sep) == b + [sep] + c;
    assert Join([a, b, c], sep) == a + [sep] + (b + [sep] + c);
  }

  /**
   * `line` starts with `host - - [timestamp] "method resource protocol"`, given
   * character by character, and goes on after the closing quote.
   */
  predicate LaysOut(line: string, req: Request)
    requires req.httpMethod.Some? && req.resource.Some? && req.protocol.Some?
  {
    var host, ts, words := req.host, req.timestamp, FormatWords(req);
    var n, t, w := |host|, |ts|, |words|;
    && n + t + w + 9 < |line|
    && (forall k :: 0 <= k < n ==> line[k] == host[k])
    && line[n] == ' ' && line[n + 1] == '-' && line[n + 2] == ' ' && line[n + 3] == '-' && line[n + 4] == ' '
    && line[n + 5] == '['
    && (forall i :: 0 <= i < t ==> line[n + 6 + i] == ts[i])
    && line[n + 6 + t] == ']' && line[n + 7 + t] == ' ' && line[n + 8 + t] == '"'
    && (forall i :: 0 <= i < w ==> line[n + 9 + t + i] == words[i])
    && line[n + 9 + t + w] == '"'
  }

  /** A line written from `req`, whatever follows the quoted request, lays out its fields. */
  lemma PrefixLaysOut(req: Request, line: string, code: string, bytes: string)
    requires req.httpMethod.Some? && req.resource.Some? && req.protocol.Some?
    requires line == FormatPrefix(req) + [' '] + code + [' '] + bytes
    ensures LaysOut(line, req)
  {
    var prefix, head := FormatPrefix(req), FormatHead(req);
    HeadChars(req);
    assert forall k :: 0 <= k < |prefix| ==> line[k] == prefix[k];
    assert forall k :: 0 <= k < |head| ==> prefix[k] == head[k];
  }

  /** The host field of a laid-out line is the request's host. */
  lemma LaidOutHost(line: string, req: Request)
    requires req.httpMethod.Some? && req.resource.Some? && req.protocol.Some?
    requires LaysOut(line, req) && Plain(req.host, {' '})
    ensures Host(line) == req.host
  {
    var n := |req.host|;
    assert SepAt(line, n);
    forall k | 0 <= k < n ensures !SepAt(line, k) {
      assert line[k] == req.host[k];
    }
    HostIs(line, n);
    assert line[..n] == req.host;
  }

  /** The bracketed field of a laid-out line is the request's timestamp. */
  lemma LaidOutTimestamp(line: string, req: Request)
    requires req.httpMethod.Some? && req.resource.Some? && req.protocol.Some?
    requires LaysOut(line, req) && Plain(req.host, {'['}) && Plain(req.timestamp, {']'})
    ensures Timestamp(line) == Some(req.timestamp)
  {
    var n, t := |req.host|, |req.timestamp|;
    forall k | 0 <= k < n + 5 ensures line[k] !in {'['} {
      if k < n { assert line[k] == req.host[k]; }
    }
    forall k | n + 5 < k < n + 6 + t ensures line[k] !in {']'} {
      assert line[k] == req.timestamp[k - n - 6];
    }
    SpanIs(line, {'['}, {']'}, n + 5, n + 6 + t);
    assert line[n + 6..n + 6 + t] == req.timestamp;
  }

  /** The quoted field of a laid-out line splits into the request's three words. */
  lemma LaidOutWords(line: string, req: Request, quotes: set<char>)
    requires QuoteClass(quotes)
    requires req.httpMethod.Some? && req.resource.Some? && req.protocol.Some?
    requires LaysOut(line, req) && Plain(req.host, quotes) && Plain(req.timestamp, quotes)
    requires Plain(FormatWords(req), quotes)
    requires Split(FormatWords(req), ' ') == [req.httpMethod.value, req.resource.value, req.protocol.value]
    ensures RequestWords(line, quotes) == Some([req.httpMethod.value, req.resource.value, req.protocol.value])
  {
    var n, t := |req.host|, |req.timestamp|;
    var words := FormatWords(req);
    var a, b := n + 8 + t, n + 9 + t + |words|;
    LaidOutHeadPlain(line, req, quotes);
    LaidOutWordsPlain(line, req, quotes);
    LaidOutSegment(line, req);
    RequestWordsAt(line, quotes, a, b);
  }

  /** The quotes of a laid-out line, and the request words between them. */
  lemma LaidOutSegment(line: string, req: Request)
    requires req.httpMethod.Some? && req.resource.Some? && req.protocol.Some?
    requires LaysOut(line, req)
    ensures var a := |req.host| + 8 + |req.timestamp|;
      var b := a + 1 + |FormatWords(req)|;
      b < |line| && line[a] == '"' && line[b] == '"' && line[a + 1..b] == FormatWords(req)
  {
    var a := |req.host| + 8 + |req.timestamp|;
    assert line[a + 1..a + 1 + |FormatWords(req)|] == FormatWords(req);
  }

  /** No quote comes between the quotes of a laid-out line. */
  lemma LaidOutWordsPlain(line: string, req: Request, quotes: set<char>)
    requires req.httpMethod.Some? && req.resource.Some? && req.protocol.Some?
    requires LaysOut(line, req) && Plain(FormatWords(req), quotes)
    ensures var a := |req.host| + 8 + |req.timestamp|;
      forall k :: a < k < a + 1 + |FormatWords(req)| ==> line[k] !in quotes
  {
    var words := FormatWords(req);
    var a := |req.host| + 8 + |req.timestamp|;
    forall k | a < k < a + 1 + |words| ensures line[k] !in quotes {
      assert line[k] == words[k - a - 1];
    }
  }

  /** No quote comes before the opening quote of a laid-out line. */
  lemma LaidOutHeadPlain(line: string, req: Request, quotes: set<char>)
    requires QuoteClass(quotes)
    requires req.httpMethod.Some? && req.resource.Some? && req.protocol.Some?
    requires LaysOut(line, req) && Plain(req.host, quotes) && Plain(req.timestamp, quotes)
    ensures forall k :: 0 <= k < |req.host| + 8 + |req.timestamp| ==> line[k] !in quotes
  {
    var n, t := |req.host|, |req.timestamp|;
    forall k | 0 <= k < n + 8 + t ensures line[k] !in quotes {
      if k < n { assert line[k] == req.host[k]; }
      else if n + 6 <= k < n + 6 + t { assert line[k] == req.timestamp[k - n - 6]; }
    }
  }

  /** The request words are the split of the text between the first two quotes. */
  lemma RequestWordsAt(line: string, quotes: set<char>, a: nat, b: nat)
    requires a < b < |line| && line[a] in quotes && line[b] in quotes
    requires forall k :: 0 <= k < a ==> line[k] !in quotes
    requires forall k :: a < k < b ==> line[k] !in quotes
    ensures RequestWords(line, quotes) == Some(Split(line[a + 1..b], ' '))
  {
    SpanIs(line, quotes, quotes, a, b);
  }

  /** The last two space-separated tokens of a line ending in two such tokens. */
  lemma LastTokens(x: string, c: string, b: string)
    requires ' ' !in c && ' ' !in b
    ensures var tokens := Split(x + [' '] + c + [' '] + b, ' ');
      |tokens| >= 2 && tokens[|tokens| - 2] == c && tokens[|tokens| - 1] == b
  {
    SplitAppend(x + [' '] + c, b, ' ');
    SplitAppend(x, c, ' ');
    SplitNone(c, ' ');
    SplitNone(b, ' ');
  }

  /** A string whose characters avoid `c` does not contain `c`. */
  lemma PlainLacks(s: string, c: char)
    requires Plain(s, {c})
    ensures c !in s
  {
  }

  /** A written line has no line break when none of its fields has one. */
  lemma WrittenOneLine(req: Request, line: string, code: string, bytes: string)
    requires req.httpMethod.Some? && req.resource.Some? && req.protocol.Some?
    requires line == FormatPrefix(req) + [' '] + code + [' '] + bytes
    requires Plain(req.host, {'\n'}) && Plain(req.timestamp, {'\n'}) && Plain(FormatWords(req), {'\n'})
    requires Plain(code, {'\n'}) && Plain(bytes, {'\n'})
    ensures '\n' !in line
  {
    PlainLacks(req.host, '\n');
    PlainLacks(req.timestamp, '\n');
    PlainLacks(FormatWords(req), '\n');
    PlainLacks(code, '\n');
    PlainLacks(bytes, '\n');
    assert '\n' !in FormatHead(req);
  }

  /** The reply of a line that ends in a reply code and a byte count. */
  lemma WrittenReply(req: Request, line: string, code: string, bytes: string)
    requires req.httpMethod.Some? && req.resource.Some? && req.protocol.Some?
    requires line == FormatPrefix(req) + [' '] + code + [' '] + bytes
    requires IsDigits(code) && DigitsValue(code) == req.replyCode
    requires (bytes == "-" && req.replyBytes == 0) || (IsDigits(bytes) && DigitsValue(bytes) == req.replyBytes)
    ensures Reply(Split(line, ' ')) == Success((req.replyCode, req.replyBytes))
  {
    ReplyOf(FormatPrefix(req), code, bytes, req.replyCode, req.replyBytes);
  }

  /** A line ending in a digit string and then a digit string or '-' reads back those two numbers. */
  lemma ReplyOf(x: string, code: string, bytes: string, codeValue: nat, bytesValue: nat)
    requires IsDigits(code) && DigitsValue(code) == codeValue
    requires (bytes == "-" && bytesValue == 0) || (IsDigits(bytes) && DigitsValue(bytes) == bytesValue)
    ensures Reply(Split(x + [' '] + code + [' '] + bytes, ' ')) == Success((codeValue, bytesValue))
  {
    assert ' ' !in code && ' ' !in bytes;
    LastTokens(x, code, bytes);
    var tokens := Split(x + [' '] + code + [' '] + bytes, ' ');
    assert tokens[|tokens| - 2] == code && tokens[|tokens| - 1] == bytes;
    if bytes != "-" {
      assert IsDigit(bytes[0]);
    }
  }

  /** Parsing succeeds with `req` when every field of `req` is found where the parser looks. */
  lemma ParseIs(line: string, quotes: set<char>, parseDate: string -> Option<Instant>, req: Request)
    requires '\n' !in line
    requires Host(line) == req.host
    requires Timestamp(line) == Some(req.timestamp)
    requires parseDate(DateText(req.timestamp)) == Some(req.instant)
    requires req.httpMethod.Some? && req.resource.Some? && req.protocol.Some?
    requires RequestWords(line, quotes) == Some([req.httpMethod.value, req.resource.value, req.protocol.value])
    requires Reply(Split(line, ' ')) == Success((req.replyCode, req.replyBytes))
    ensures Parse(line, quotes, parseDate) == Success(req)
  {
    AssembleIs(req, Some([req.httpMethod.value, req.resource.value, req.protocol.value]), parseDate);
  }

  lemma AssembleIs(req: Request, words: Option<seq<string>>, parseDate: string -> Option<Instant>)
    requires parseDate(DateText(req.timestamp)) == Some(req.instant)
    requires req.httpMethod.Some? && req.resource.Some? && req.protocol.Some?
    requires words == Some([req.httpMethod.value, req.resource.value, req.protocol.value])
    ensures Assemble(req.host, Some(req.timestamp), words, Success((req.replyCode, req.replyBytes)), parseDate) == Success(req)
  {
  }

  /** A written line with any well-formed reply code and byte count parses back to `req`. */
  lemma WrittenFields(req: Request, line: string, code: string, bytes: string, quotes: set<char>, parseDate: string -> Option<Instant>)
    requires QuoteClass(quotes)
    requires Formattable(req, quotes, parseDate)
    requires line == FormatPrefix(req) + [' '] + code + [' '] + bytes
    requires IsDigits(code) && DigitsValue(code) == req.replyCode
    requires (bytes == "-" && req.replyBytes == 0) || (IsDigits(bytes) && DigitsValue(bytes) == req.replyBytes)
    ensures '\n' !in line
    ensures Host(line) == req.host
    ensures Timestamp(line) == Some(req.timestamp)
    ensures RequestWords(line, quotes) == Some([req.httpMethod.value, req.resource.value, req.protocol.value])
    ensures Reply(Split(line, ' ')) == Success((req.replyCode, req.replyBytes))
  {
    WordsSplit(req, quotes);
    WrittenOneLine(req, line, code, bytes);
    PrefixLaysOut(req, line, code, bytes);
    LaidOutHost(line, req);
    LaidOutTimestamp(line, req);
    LaidOutWords(line, req, quotes);
    WrittenReply(req, line, code, bytes);
  }

  /**
   * Writing a request out as a log line and parsing the line gives the request
   * back; a '-' byte count is read as 0.
   */
  lemma ParseFormat(req: Request, dashBytes: bool, quotes: set<char>, parseDate: string -> Option<Instant>)
    requires quotes == SrcQuotes || quotes == TempQuotes
    requires Formattable(req, quotes, parseDate)
    requires dashBytes ==> req.replyBytes == 0
    ensures '\n' !in Format(req, dashBytes)
    ensures Parse(Format(req, dashBytes), quotes, parseDate) == Success(req)
  {
    DecimalRoundTrip(req.replyCode);
    if !dashBytes { DecimalRoundTrip(req.replyBytes); }
    assert QuoteClass(quotes);
    WrittenFields(req, Format(req, dashBytes), Decimal(req.replyCode), FormatBytes(req, dashBytes), quotes, parseDate);
    ParseIs(Format(req, dashBytes), quotes, parseDate, req);
  }
}
