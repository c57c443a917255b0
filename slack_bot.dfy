/**
 * The text handling of the Slack bot (slack_bot.py): the `<@BOT>` mention is
 * cut off the incoming text to give the query, the query is issued with the
 * bot's fixed parameters, and the "Relevant Sources" message is built from
 * the URLs the answer cites and sent only when there are any.
 *
 * Posting to Slack (`say`) and the answering service are outside the model:
 * the handler's replies are modelled as the list of texts it would post.
 */
module SlackBot {
  import opened Text

  /** The similarity threshold the bot passes with each query. */
  const Threshold: real := 0.6

  /** The number of results the bot asks for. */
  const NResults: int := 10

  /** The first line of the sources message. */
  const SourcesHeader := "*Relevant Sources:*"

  /** The prefix of each source line, kept byte for byte as the source file spells it. */
  const Bullet := "\U{E2}\U{20AC}\U{A2} "

  /** The query text of a mention: `text.split(">", 1)[1].strip()` when `text` holds a `>`, else `text`. */
  function QueryText(text: string): string
  {
    if '>' in text then Strip(text[IndexOf(text, '>') + 1..]) else text
  }

  /**
   * Without a `>` the query is the text unchanged; with one, it is what
   * follows the first `>`, stripped, later `>` characters included.
   */
  lemma QueryTextSpec(text: string, k: nat)
    ensures '>' !in text ==> QueryText(text) == text
    ensures k < |text| && text[k] == '>' && '>' !in text[..k] ==> QueryText(text) == Strip(text[k + 1..])
  {
    if k < |text| && text[k] == '>' && '>' !in text[..k] {
      IndexOfFirst(text, '>', k);
    }
  }

  /**
   * The query text agrees with Python's `text.split(">", 1)[1].strip()` read
   * as the parts after the first one, joined back with `>`, then stripped.
   */
  lemma QueryTextIsSplitOnce(text: string)
    requires '>' in text
    ensures QueryText(text) == Strip(Join(Split(text, '>')[1..], ">"))
  {
    var after := text[IndexOf(text, '>') + 1..];
    SplitTail(text, '>');
    JoinSplit(after, '>');
  }

  /** A string read as the part before position `k`, the character there, and the rest. */
  lemma CountAround(s: string, k: nat, c: char)
    requires k < |s|
    ensures multiset(s)[c] == multiset(s[..k])[c] + (if s[k] == c then 1 else 0) + multiset(s[k + 1..])[c]
  {
    assert s == s[..k] + [s[k]] + s[k + 1..];
  }

  /**
   * Cutting the mention removes exactly one `>`, the first, and keeps every
   * later one; the query neither starts nor ends with whitespace.
   */
  lemma QueryTextDropsOneBracket(text: string)
    requires '>' in text
    ensures multiset(QueryText(text))['>'] == multiset(text)['>'] - 1
    ensures var q := QueryText(text); q == [] || (!IsSpace(q[0]) && !IsSpace(q[|q| - 1]))
  {
    var k := IndexOf(text, '>');
    var after := text[k + 1..];
    StripKeepsNonSpace(after, '>');
    StripSpec(after);
    CountAround(text, k, '>');
    assert multiset(text[..k])['>'] == 0;
  }

  /** The call `query_database(message_text, n_results=..., similarity_threshold=...)` the handler makes. */
  datatype QueryCall = QueryCall(queryText: string, nResults: int, similarityThreshold: real)

  /** The query a mention issues: its query text, with the bot's count and threshold. */
  function MentionQuery(text: string): (call: QueryCall)
    ensures call.nResults == 10 && call.similarityThreshold == 0.6
    ensures call.queryText == QueryText(text)
  {
    QueryCall(QueryText(text), NResults, Threshold)
  }

  /** One bullet line per URL, in order. */
  function Bullets(urls: seq<string>): (lines: seq<string>)
    ensures |lines| == |urls|
    ensures forall i :: 0 <= i < |urls| ==> lines[i] == Bullet + urls[i]
  {
    seq(|urls|, i requires 0 <= i < |urls| => Bullet + urls[i])
  }

  /** The sources message: the header line, then the bullet lines joined with newlines. */
  function SourcesText(urls: seq<string>): string
  {
    SourcesHeader + "\n" + Join(Bullets(urls), "\n")
  }

  /**
   * Read line by line, the sources message is the header followed by one
   * bullet per URL, in order and with duplicates kept, and no trailing empty line.
   */
  lemma SourcesTextLines(urls: seq<string>)
    requires urls != []
    requires forall i :: 0 <= i < |urls| ==> '\n' !in urls[i]
    ensures Split(SourcesText(urls), '\n') == [SourcesHeader] + Bullets(urls)
  {
    var lines := [SourcesHeader] + Bullets(urls);
    assert lines[1..] == Bullets(urls);
    assert Join(lines, "\n") == SourcesHeader + "\n" + Join(Bullets(urls), "\n");
    forall i | 0 <= i < |lines|
      ensures '\n' !in lines[i]
    {
      if i > 0 {
        assert lines[i] == Bullet + urls[i - 1];
      }
    }
    SplitJoin(lines, '\n');
  }

  /**
   * The texts the handler posts in the thread for an answer and its cited
   * URLs: the answer, then the sources message when `urls` is non-empty.
   */
  function ThreadReplies(answer: string, urls: seq<string>): (posts: seq<string>)
    ensures |posts| >= 1 && posts[0] == answer
    ensures |posts| == 2 <==> urls != []
    ensures |posts| <= 2
    ensures urls != [] ==> posts[1] == SourcesText(urls)
  {
    [answer] + if urls != [] then [SourcesText(urls)] else []
  }
}
