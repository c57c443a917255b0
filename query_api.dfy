/**
 * The command-line client (query_api.py): `query_database` posts a query to
 * the service and copies each result's metadata `url` into `slack_url`;
 * `print_results` numbers the results and strips the document markers that
 * ingestion put in.
 *
 * The HTTP call is an oracle passed in as a function value; the printed output
 * is modelled as the list of entries it shows, not as text.
 */
module QueryApi {
  import opened Wrappers
  import opened Text
  import opened SlackSync

  /** A result object of the service's JSON answer, as a dict the client may update. */
  datatype ResultDict = ResultDict(message: string, similarity: real,
                                   metadata: Option<map<string, string>>, slackUrl: Option<string>)

  /** The client's `MessageResponse`. */
  datatype MessageResponse = MessageResponse(message: string, similarity: real, slackUrl: Option<string>)

  /** What `requests.post` and `response.json()` produce: the results, or one of the two caught failures. */
  datatype HttpReply = Replied(results: seq<ResultDict>) | ConnectionRefused | Failed

  /** The result carries metadata with a `url` key. */
  predicate HasUrl(d: ResultDict)
  {
    d.metadata.Some? && "url" in d.metadata.value
  }

  /** The body of the metadata loop for one result dict, with the source's three tests. */
  function WithSlackUrl(d: ResultDict): ResultDict
  {
    if d.metadata.Some? && |d.metadata.value| > 0 then
      if "url" in d.metadata.value then d.(slackUrl := Some(d.metadata.value["url"])) else d
    else
      d
  }

  /**
   * The copy happens exactly when the metadata holds a `url` (its non-emptiness
   * test is implied by that), and the dict is otherwise untouched.
   */
  lemma WithSlackUrlExactlyForUrl(d: ResultDict)
    ensures HasUrl(d) ==> WithSlackUrl(d) == d.(slackUrl := Some(d.metadata.value["url"]))
    ensures !HasUrl(d) ==> WithSlackUrl(d) == d
  {
    if HasUrl(d) {
      assert "url" in d.metadata.value.Keys;
      assert |d.metadata.value.Keys| > 0;
    }
  }

  /** The loop of `query_database` that updates each result dict in place. */
  method AttachSlackUrls(results: array<ResultDict>)
    modifies results
    ensures forall i :: 0 <= i < results.Length ==> results[i] == WithSlackUrl(old(results[i]))
  {
    for i := 0 to results.Length
      invariant forall k :: 0 <= k < i ==> results[k] == WithSlackUrl(old(results[k]))
      invariant forall k :: i <= k < results.Length ==> results[k] == old(results[k])
    {
      results[i] := WithSlackUrl(results[i]);
    }
  }

  /**
   * `query_database`: the query text and `n_results` (default 5) are posted;
   * a connection error or any other failure gives the empty list; otherwise
   * one response per result, in order, whose `slack_url` is the metadata
   * `url` where there is one.
   */
  method QueryDatabase(queryText: string, post: (string, int) -> HttpReply, nResults: int := 5)
    returns (responses: seq<MessageResponse>)
    ensures !post(queryText, nResults).Replied? ==> responses == []
    ensures post(queryText, nResults).Replied? ==>
              var results := post(queryText, nResults).results;
              && |responses| == |results|
              && forall i :: 0 <= i < |results| ==>
                   && responses[i].message == results[i].message
                   && responses[i].similarity == results[i].similarity
                   && responses[i].slackUrl ==
                        if HasUrl(results[i]) then Some(results[i].metadata.value["url"]) else results[i].slackUrl
  {
    var reply := post(queryText, nResults);
    if !reply.Replied? {
      return [];
    }
    var received := reply.results;
    var results := new ResultDict[|received|](i requires 0 <= i < |received| => received[i]);
    AttachSlackUrls(results);
    responses := [];
    for i := 0 to results.Length
      invariant |responses| == i
      invariant forall k :: 0 <= k < i ==>
                  responses[k] == MessageResponse(results[k].message, results[k].similarity, results[k].slackUrl)
    {
      responses := responses + [MessageResponse(results[i].message, results[i].similarity, results[i].slackUrl)];
    }
    forall k | 0 <= k < |received| {
      WithSlackUrlExactlyForUrl(received[k]);
    }
  }

  // ---------------------------------------------------------------- print_results

  /** What replaces a thread-start marker when printing. */
  const ThreadBullet := "\n  \U{2514}\U{2500} "

  /** The marker cleanup of `print_results`: four replace-alls in order, then `strip()`. */
  function CleanMessage(message: string): string
  {
    var noStart := ReplaceAll(message, MessageStart, "");
    var noEnd := ReplaceAll(noStart, MessageEnd, "");
    var bulleted := ReplaceAll(noEnd, ThreadStart, ThreadBullet);
    Strip(ReplaceAll(bulleted, ThreadEnd, ""))
  }

  /** A message without any `|`, so without any marker, is only stripped by the cleanup. */
  lemma CleanPlainMessage(message: string)
    requires '|' !in message
    ensures CleanMessage(message) == Strip(message)
  {
    assert MessageStart[0] == '|' && MessageEnd[0] == '|' && ThreadStart[0] == '|' && ThreadEnd[0] == '|';
    ReplaceAllAbsent(message, MessageStart, "");
    ReplaceAllAbsent(message, MessageEnd, "");
    ReplaceAllAbsent(message, ThreadStart, ThreadBullet);
    ReplaceAllAbsent(message, ThreadEnd, "");
  }

  /** One printed result: its number, the cleaned message, the URL line if any, the similarity if shown. */
  datatype PrintedResult = PrintedResult(number: nat, message: string, slackUrl: Option<string>, similarity: Option<real>)

  /** The output of `print_results`. */
  datatype Printout = NoResults | Listing(entries: seq<PrintedResult>)

  /** The entry printed for the result at index `i`. */
  function Entry(i: nat, result: MessageResponse, showSimilarity: bool): PrintedResult
  {
    PrintedResult(i + 1, CleanMessage(result.message),
                  if Truthy(result.slackUrl) then result.slackUrl else None,
                  if showSimilarity then Some(result.similarity) else None)
  }

  /**
   * `print_results`: an empty list prints only "No results found."; otherwise
   * the results, numbered from 1 in list order, with the URL line for a truthy
   * `slack_url` and the similarity when asked for.
   */
  method PrintResults(results: seq<MessageResponse>, showSimilarity: bool := true) returns (out: Printout)
    ensures results == [] <==> out == NoResults
    ensures results != [] ==>
              && out.Listing?
              && |out.entries| == |results|
              && forall i :: 0 <= i < |results| ==>
                   && out.entries[i].number == i + 1
                   && out.entries[i].message == CleanMessage(results[i].message)
                   && out.entries[i].slackUrl == (if Truthy(results[i].slackUrl) then results[i].slackUrl else None)
                   && out.entries[i].similarity == (if showSimilarity then Some(results[i].similarity) else None)
  {
    if results == [] {
      return NoResults;
    }
    var entries: seq<PrintedResult> := [];
    for i := 0 to |results|
      invariant |entries| == i
      invariant forall k :: 0 <= k < i ==> entries[k] == Entry(k, results[k], showSimilarity)
    {
      entries := entries + [Entry(i, results[i], showSimilarity)];
    }
    out := Listing(entries);
  }

  // ---------------------------------------------------------------- cleanup of formatted documents

  /**
   * A document cut into markers and the plain text between them; used to
   * follow the four replace-alls of `CleanMessage` over a formatted document.
   */
  datatype Piece = Marker(m: string) | Plain(s: string)

  function Show(p: Piece): string
  {
    match p
    case Marker(m) => m
    case Plain(s) => s
  }

  function Render(ps: seq<Piece>): string
    decreases |ps|
  {
    if ps == [] then "" else Show(ps[0]) + Render(ps[1..])
  }

  predicate IsMarker(m: string)
  {
    m == MessageStart || m == MessageEnd || m == ThreadStart || m == ThreadEnd
  }

  /** What follows a marker: nothing, or plain text that starts with a space. */
  predicate StartsWithSpace(ps: seq<Piece>)
  {
    ps == [] || (ps[0].Plain? && |ps[0].s| > 0 && ps[0].s[0] == ' ')
  }

  /** Every marker is one of the four and is followed by a space; plain text holds no `|`. */
  predicate Tokenised(ps: seq<Piece>)
    decreases |ps|
  {
    ps == [] ||
    (&& (match ps[0]
         case Marker(m) => IsMarker(m) && StartsWithSpace(ps[1..])
         case Plain(s) => '|' !in s)
     && Tokenised(ps[1..]))
  }

  /** Every `pat` marker turned into the plain text `rep`. */
  function Substitute(ps: seq<Piece>, pat: string, rep: string): (r: seq<Piece>)
    ensures |r| == |ps|
    ensures forall i :: 0 <= i < |ps| ==> r[i] == if ps[i] == Marker(pat) then Plain(rep) else ps[i]
  {
    seq(|ps|, i requires 0 <= i < |ps| => if ps[i] == Marker(pat) then Plain(rep) else ps[i])
  }

  predicate Lacks(ps: seq<Piece>, pat: string)
  {
    forall i :: 0 <= i < |ps| ==> ps[i] != Marker(pat)
  }

  lemma {:induction false} RenderConcat(a: seq<Piece>, b: seq<Piece>)
    ensures Render(a + b) == Render(a) + Render(b)
    decreases |a|
  {
    if a == [] {
      assert a + b == b;
    } else {
      assert (a + b)[0] == a[0];
      assert (a + b)[1..] == a[1..] + b;
      RenderConcat(a[1..], b);
    }
  }

  /** Each marker is `|<`, a name without `|`, then `|`. */
  lemma MarkerShape(m: string)
    requires IsMarker(m)
    ensures |m| >= 14 && m[0] == '|' && m[1] == '<' && m[|m| - 1] == '|' && '|' !in m[1..|m| - 1]
  {
  }

  /** Two distinct markers differ at a position both have. */
  lemma MarkersDiffer(m: string, pat: string) returns (k: nat)
    requires IsMarker(m) && IsMarker(pat) && m != pat
    ensures k < |m| && k < |pat| && m[k] != pat[k]
  {
    MarkerShape(m);
    MarkerShape(pat);
    k := if m[2] != pat[2] then 2 else if m[2] == 'm' then 10 else 9;
  }

  /** Where the text differs from the pattern within the pattern's length, `replace` keeps its first character. */
  lemma ReplaceAllDiffering(s: string, pat: string, rep: string, k: nat)
    requires k < |s| && k < |pat| && s[k] != pat[k]
    ensures ReplaceAll(s, pat, rep) == [s[0]] + ReplaceAll(s[1..], pat, rep)
  {
    ReplaceAllUnmatched(s, pat, rep);
  }

  /** A closing `|` followed by nothing or a space is not where a marker starts. */
  lemma ReplaceAllAfterBar(rest: string, pat: string, rep: string)
    requires |pat| >= 2 && pat[1] == '<'
    requires rest == [] || rest[0] == ' '
    ensures ReplaceAll("|" + rest, pat, rep) == "|" + ReplaceAll(rest, pat, rep)
  {
    var tail := "|" + rest;
    assert !(pat <= tail) by {
      if |tail| >= 2 {
        assert tail[1] == ' ';
      }
    }
    assert tail[1..] == rest;
    ReplaceAllUnmatched(tail, pat, rep);
  }

  /**
   * A `|`-delimited token followed by nothing or a space, which differs from
   * the pattern somewhere, passes through `replace` whole.
   */
  lemma ReplaceAllAcrossToken(m: string, rest: string, pat: string, rep: string, k: nat)
    requires |m| >= 2 && m[0] == '|' && m[|m| - 1] == '|' && '|' !in m[1..|m| - 1]
    requires |pat| >= 2 && pat[0] == '|' && pat[1] == '<'
    requires k < |m| && k < |pat| && m[k] != pat[k]
    requires rest == [] || rest[0] == ' '
    ensures ReplaceAll(m + rest, pat, rep) == m + ReplaceAll(rest, pat, rep)
  {
    var mid := m[1..|m| - 1];
    TokenSplit(m, rest);
    ReplaceAllDiffering(m + rest, pat, rep, k);
    ReplaceAllSkipsPrefix(mid, "|" + rest, pat, rep);
    ReplaceAllAfterBar(rest, pat, rep);
    TokenSplit(m, ReplaceAll(rest, pat, rep));
  }

  /** A token ending in `|`, followed by `x`, read as its first character, its inside, the bar and `x`. */
  lemma TokenSplit(m: string, x: string)
    requires |m| >= 2 && m[|m| - 1] == '|'
    ensures m + x == [m[0]] + (m[1..|m| - 1] + ("|" + x))
    ensures (m + x)[0] == m[0] && (m + x)[1..] == m[1..|m| - 1] + ("|" + x)
  {
    assert m == [m[0]] + m[1..|m| - 1] + "|";
  }

  /** A marker followed by nothing or a space passes through `replace` whole, unless it is the pattern. */
  lemma ReplaceAllAcrossMarker(m: string, rest: string, pat: string, rep: string)
    requires IsMarker(m) && IsMarker(pat)
    requires rest == [] || rest[0] == ' '
    ensures ReplaceAll(m + rest, pat, rep) == (if m == pat then rep else m) + ReplaceAll(rest, pat, rep)
  {
    if m == pat {
      assert pat <= m + rest;
      assert (m + rest)[|pat|..] == rest;
    } else {
      MarkerShape(m);
      MarkerShape(pat);
      var k := MarkersDiffer(m, pat);
      ReplaceAllAcrossToken(m, rest, pat, rep, k);
    }
  }

  /** `replace` over a tokenised document is the substitution of its pattern markers. */
  lemma {:induction false} ReplaceAllTokenised(ps: seq<Piece>, pat: string, rep: string)
    requires Tokenised(ps) && IsMarker(pat) && '|' !in rep
    ensures ReplaceAll(Render(ps), pat, rep) == Render(Substitute(ps, pat, rep))
    ensures Tokenised(Substitute(ps, pat, rep))
    ensures Lacks(Substitute(ps, pat, rep), pat)
    decreases |ps|
  {
    if ps != [] {
      var rest := ps[1..];
      var sub := Substitute(ps, pat, rep);
      assert sub[1..] == Substitute(rest, pat, rep);
      ReplaceAllTokenised(rest, pat, rep);
      match ps[0]
      case Plain(s) =>
        ReplaceAllSkipsPrefix(s, Render(rest), pat, rep);
      case Marker(m) =>
        assert StartsWithSpace(rest);
        if rest != [] {
          assert Render(rest) == rest[0].s + Render(rest[1..]);
        }
        ReplaceAllAcrossMarker(m, Render(rest), pat, rep);
    }
  }

  /** Substitution never brings a marker back. */
  lemma SubstituteKeepsLacks(ps: seq<Piece>, pat: string, rep: string, q: string)
    requires Lacks(ps, q)
    ensures Lacks(Substitute(ps, pat, rep), q)
  {
  }

  /** A tokenised document without any of the four markers holds no `|` at all. */
  lemma {:induction false} NoMarkersNoBar(ps: seq<Piece>)
    requires Tokenised(ps)
    requires Lacks(ps, MessageStart) && Lacks(ps, MessageEnd) && Lacks(ps, ThreadStart) && Lacks(ps, ThreadEnd)
    ensures '|' !in Render(ps)
    decreases |ps|
  {
    if ps != [] {
      assert ps[0].Plain?;
      NoMarkersNoBar(ps[1..]);
    }
  }

  /** The pieces of the reply segments. */
  function ReplyPieces(replies: seq<SlackMessage>): seq<Piece>
    requires forall i :: 0 <= i < |replies| ==> replies[i].text.Some?
    decreases |replies|
  {
    if replies == [] then []
    else [Plain(" "), Marker(ThreadStart), Plain(" " + replies[0].text.value + " "), Marker(ThreadEnd)]
         + ReplyPieces(replies[1..])
  }

  /** The pieces of a formatted document. */
  function FormatPieces(text: string, replies: seq<SlackMessage>): seq<Piece>
    requires forall i :: 0 <= i < |replies| ==> replies[i].text.Some?
  {
    [Marker(MessageStart), Plain(" " + text + " "), Marker(MessageEnd)] + ReplyPieces(replies)
  }

  /** Tokenised, one piece at a time. */
  lemma TokenisedCons(p: Piece, rest: seq<Piece>)
    ensures Tokenised([p] + rest) <==>
              && (match p
                  case Marker(m) => IsMarker(m) && StartsWithSpace(rest)
                  case Plain(s) => '|' !in s)
              && Tokenised(rest)
  {
    DropHead(p, rest);
  }

  /** Rendering one piece in front of others. */
  lemma RenderCons(p: Piece, rest: seq<Piece>)
    ensures Render([p] + rest) == Show(p) + Render(rest)
  {
    DropHead(p, rest);
  }

  lemma Render4(a: Piece, b: Piece, c: Piece, d: Piece, rest: seq<Piece>)
    ensures Render([a, b, c, d] + rest) == Show(a) + Show(b) + Show(c) + Show(d) + Render(rest)
  {
    assert [a, b, c, d] + rest == [a] + ([b] + ([c] + ([d] + rest)));
    RenderCons(d, rest);
    RenderCons(c, [d] + rest);
    RenderCons(b, [c] + ([d] + rest));
    RenderCons(a, [b] + ([c] + ([d] + rest)));
    Associate4(Show(a), Show(b), Show(c), Show(d), Render(rest));
  }

  lemma Associate4(a: string, b: string, c: string, d: string, e: string)
    ensures a + (b + (c + (d + e))) == a + b + c + d + e
  {
  }

  /** The pieces one reply adds render as its thread segment. */
  lemma ReplyPiecesRender(reply: SlackMessage, rest: seq<Piece>)
    requires reply.text.Some?
    ensures var t := reply.text.value;
            Render([Plain(" "), Marker(ThreadStart), Plain(" " + t + " "), Marker(ThreadEnd)] + rest) ==
              ThreadSegment(reply).value + Render(rest)
  {
    var t := reply.text.value;
    Render4(Plain(" "), Marker(ThreadStart), Plain(" " + t + " "), Marker(ThreadEnd), rest);
  }

  /** The reply pieces render as the reply segments. */
  lemma {:induction false} ReplyPiecesRenderAll(replies: seq<SlackMessage>)
    requires forall i :: 0 <= i < |replies| ==> replies[i].text.Some?
    ensures ThreadSegments(replies).Some? && Render(ReplyPieces(replies)) == ThreadSegments(replies).value
    decreases |replies|
  {
    if replies != [] {
      ReplyPiecesRenderAll(replies[1..]);
      ReplyPiecesRender(replies[0], ReplyPieces(replies[1..]));
    }
  }

  /** The four pieces of one reply keep a tokenised tail tokenised. */
  lemma ReplyGroupTokenised(t: string, rest: seq<Piece>)
    requires '|' !in t && Tokenised(rest) && StartsWithSpace(rest)
    ensures var ps := [Plain(" "), Marker(ThreadStart), Plain(" " + t + " "), Marker(ThreadEnd)] + rest;
            Tokenised(ps) && StartsWithSpace(ps)
  {
    var a, b, c, d := Plain(" "), Marker(ThreadStart), Plain(" " + t + " "), Marker(ThreadEnd);
    assert [a, b, c, d] + rest == [a] + ([b] + ([c] + ([d] + rest)));
    assert '|' !in " " + t + " ";
    TokenisedCons(d, rest);
    TokenisedCons(c, [d] + rest);
    TokenisedCons(b, [c] + ([d] + rest));
    TokenisedCons(a, [b] + ([c] + ([d] + rest)));
  }

  /** The reply pieces are tokenised when no reply text holds `|`, and start with a space. */
  lemma {:induction false} ReplyPiecesTokenised(replies: seq<SlackMessage>)
    requires forall i :: 0 <= i < |replies| ==> replies[i].text.Some? && '|' !in replies[i].text.value
    ensures Tokenised(ReplyPieces(replies)) && StartsWithSpace(ReplyPieces(replies))
    decreases |replies|
  {
    if replies != [] {
      ReplyPiecesTokenised(replies[1..]);
      ReplyGroupTokenised(replies[0].text.value, ReplyPieces(replies[1..]));
    }
  }

  /** The three root pieces render as the root segment. */
  lemma RootPiecesRender(text: string)
    ensures Render([Marker(MessageStart), Plain(" " + text + " "), Marker(MessageEnd)]) == RootSegment(text)
  {
    var a, b, c := Marker(MessageStart), Plain(" " + text + " "), Marker(MessageEnd);
    assert [a, b, c] == [a] + ([b] + ([c] + []));
    RenderCons(c, []);
    RenderCons(b, [c] + []);
    RenderCons(a, [b] + ([c] + []));
    RootAssociates(MessageStart, " ", text, " ", MessageEnd);
  }

  lemma RootAssociates(a: string, b: string, c: string, d: string, e: string)
    ensures a + ((b + c + d) + (e + "")) == a + b + c + d + e
  {
  }

  /** A formatted document cut into pieces: the pieces render as the document and are tokenised. */
  lemma FormatPiecesCorrect(m: MessageData)
    requires '|' !in PyStr(m.text)
    requires forall i :: 0 <= i < |m.threadReplies| ==>
               m.threadReplies[i].text.Some? && '|' !in m.threadReplies[i].text.value
    ensures FormatMessage(m).Some?
    ensures Render(FormatPieces(PyStr(m.text), m.threadReplies)) == FormatMessage(m).value
    ensures Tokenised(FormatPieces(PyStr(m.text), m.threadReplies))
  {
    var text := PyStr(m.text);
    ReplyPiecesRenderAll(m.threadReplies);
    ReplyPiecesTokenised(m.threadReplies);
    var rest := ReplyPieces(m.threadReplies);
    var a, b, c := Marker(MessageStart), Plain(" " + text + " "), Marker(MessageEnd);
    RenderConcat([a, b, c], rest);
    RootPiecesRender(text);
    assert '|' !in " " + text + " ";
    TokenisedCons(c, rest);
    TokenisedCons(b, [c] + rest);
    TokenisedCons(a, [b] + ([c] + rest));
    assert [a, b, c] + rest == [a] + ([b] + ([c] + rest));
  }

  /**
   * For a document produced by `format_message` whose texts contain no `|`,
   * the cleaned message contains no `|` at all, so none of the four markers.
   */
  lemma CleanedDocumentHasNoMarkers(m: MessageData)
    requires '|' !in PyStr(m.text)
    requires forall i :: 0 <= i < |m.threadReplies| ==>
               m.threadReplies[i].text.Some? && '|' !in m.threadReplies[i].text.value
    ensures FormatMessage(m).Some?
    ensures var clean := CleanMessage(FormatMessage(m).value);
            && '|' !in clean
            && !Contains(clean, MessageStart) && !Contains(clean, MessageEnd)
            && !Contains(clean, ThreadStart) && !Contains(clean, ThreadEnd)
  {
    FormatPiecesCorrect(m);
    var ps0 := FormatPieces(PyStr(m.text), m.threadReplies);
    ReplaceAllTokenised(ps0, MessageStart, "");
    var ps1 := Substitute(ps0, MessageStart, "");
    ReplaceAllTokenised(ps1, MessageEnd, "");
    var ps2 := Substitute(ps1, MessageEnd, "");
    SubstituteKeepsLacks(ps1, MessageEnd, "", MessageStart);
    ReplaceAllTokenised(ps2, ThreadStart, ThreadBullet);
    var ps3 := Substitute(ps2, ThreadStart, ThreadBullet);
    SubstituteKeepsLacks(ps2, ThreadStart, ThreadBullet, MessageStart);
    SubstituteKeepsLacks(ps2, ThreadStart, ThreadBullet, MessageEnd);
    ReplaceAllTokenised(ps3, ThreadEnd, "");
    var ps4 := Substitute(ps3, ThreadEnd, "");
    SubstituteKeepsLacks(ps3, ThreadEnd, "", MessageStart);
    SubstituteKeepsLacks(ps3, ThreadEnd, "", MessageEnd);
    SubstituteKeepsLacks(ps3, ThreadEnd, "", ThreadStart);
    NoMarkersNoBar(ps4);
    var clean := CleanMessage(FormatMessage(m).value);
    assert clean == Strip(Render(ps4));
    StripKeepsAbsence(Render(ps4), '|');
    NotContainsWithoutHead(clean, MessageStart);
    NotContainsWithoutHead(clean, MessageEnd);
    NotContainsWithoutHead(clean, ThreadStart);
    NotContainsWithoutHead(clean, ThreadEnd);
  }
}
