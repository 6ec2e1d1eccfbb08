/** The language-model service wrapper (`src/services/groq.js`). The network
    call itself is a parameter: `Reply` is what the SDK call did, and the JSON
    parser is a function parameter. What is modelled is the post-processing
    around the call: fallback strings, fence stripping and error rethrow. */
module Groq {
  import opened Wrappers
  import opened Text
  import opened Analysis

  /** The outcome of one `chat.completions.create` call: it returned, with
      the first choice's message content if there was one, or it threw an
      error with the given `message` (the empty string standing for a
      missing or empty message). */
  datatype Reply = Returned(content: Option<string>) | Threw(message: string)

  /** The text a chat turn sends: the user's message and the language name
      the system instruction asks the answer to be written in. */
  datatype ChatRequest = ChatRequest(userMessage: string, language: string)

  const NoAnswerFallback: string := "I no fit process that request right now. Abeg try again later."
  const ConnectionApology: string := "Sorry, I'm having trouble connecting to my brain. Please check your internet or try again later."

  /** `getGroqResponse`: never throws. Usable content is returned as it is;
      missing or empty content gives the Pidgin fallback, and any failure
      gives the connection apology. */
  function ChatAnswer(reply: Reply): (answer: string)
    ensures answer != []
    ensures reply.Threw? ==> answer == ConnectionApology
    ensures reply.Returned? && !Truthy(reply.content) ==> answer == NoAnswerFallback
    ensures reply.Returned? && Truthy(reply.content) ==> answer == reply.content.value
  {
    match reply
    case Threw(_) => ConnectionApology
    case Returned(content) => OrElse(content, NoAnswerFallback)
  }

  // ---------------------------------------------------------------------------
  // Fence stripping

  const JsonFence: string := "```json"
  const Fence: string := "```"

  /** The cleaning step before `JSON.parse`: every "```json" is deleted,
      then every "```", then surrounding whitespace is trimmed. */
  function StripFences(content: string): (r: string)
    ensures Trimmed(r)
    ensures !Occurs(Fence, r)
    ensures |r| <= |content|
  {
    var noJson := RemoveAll(content, JsonFence);
    var noFence := RemoveAll(noJson, Fence);
    RemoveAllFenceLeavesNone(noJson);
    TrimKeepsAbsence(noFence, Fence);
    Trim(noFence)
  }

  /** After removing every "```" left to right, none is left: a backtick that
      survives is never followed by two more once the removed runs close up. */
  lemma {:induction false} RemoveAllFenceLeavesNone(s: string)
    ensures !Occurs(Fence, RemoveAll(s, Fence))
    decreases |s|
  {
    if |s| == 0 {
      assert !HasPrefix([], Fence);
    } else if HasPrefix(s, Fence) {
      RemoveAllFenceLeavesNone(s[3..]);
    } else {
      var t := RemoveAll(s[1..], Fence);
      RemoveAllFenceLeavesNone(s[1..]);
      assert RemoveAll(s, Fence) == [s[0]] + t;
      if s[0] == '`' {
        NoDoubleTickAfterTick(s);
      }
      NotOccursCons(Fence, s[0], t);
    }
  }

  /** "```" is at the front exactly when the first three characters are
      backticks. */
  lemma FenceAtFront(x: string)
    ensures HasPrefix(x, Fence) <==> |x| >= 3 && x[0] == '`' && x[1] == '`' && x[2] == '`'
  {
    if |x| >= 3 {
      assert x[..3] == [x[0], x[1], x[2]];
    }
  }

  /** When `s` starts with a backtick but not with "```", what the removal
      makes of `s[1..]` does not start with two backticks. */
  lemma NoDoubleTickAfterTick(s: string)
    requires |s| > 0 && s[0] == '`' && !HasPrefix(s, Fence)
    ensures var t := RemoveAll(s[1..], Fence); !(|t| >= 2 && t[0] == '`' && t[1] == '`')
  {
    var u := s[1..];
    FenceAtFront(s);
    if |u| > 0 {
      FenceAtFront(u);
      assert RemoveAll(u, Fence) == [u[0]] + RemoveAll(u[1..], Fence);
      if u[0] == '`' && |u| > 1 {
        var w := u[1..];
        FenceAtFront(w);
        assert RemoveAll(w, Fence) == [w[0]] + RemoveAll(w[1..], Fence);
      }
    }
  }

  /** A slice of a string the pattern does not occur in is free of it too;
      in particular the trimmed string. */
  lemma TrimKeepsAbsence(s: string, p: string)
    requires !Occurs(p, s)
    ensures !Occurs(p, Trim(s))
  {
    var i, j :| 0 <= i <= j <= |s| && Trim(s) == s[i..j] && AllSpace(s[..i]) && AllSpace(s[j..]);
    var r := s[i..j];
    forall k | 0 <= k <= |r| ensures !HasPrefix(r[k..], p) {
      assert !HasPrefix(s[i + k..], p);
      assert r[k..] == s[i + k..][..|r| - k];
      PrefixKeepsMatch(r[k..], s[i + k..], p);
    }
  }

  lemma PrefixKeepsMatch(x: string, y: string, p: string)
    requires |x| <= |y| && x == y[..|x|]
    ensures HasPrefix(x, p) ==> HasPrefix(y, p)
  {
    if HasPrefix(x, p) {
      assert y[..|p|] == x[..|p|];
    }
  }

  /** Content with no backtick at all is only trimmed. */
  lemma StripWithoutBackticks(content: string)
    requires '`' !in content
    ensures StripFences(content) == Trim(content)
  {
  }

  /** A fenced block "```json" + s + "```" around backtick-free text strips
      to the trimmed text. */
  lemma StripFencedBlock(s: string)
    requires '`' !in s
    ensures StripFences(JsonFence + s + Fence) == Trim(s)
  {
    var block := JsonFence + s + Fence;
    assert HasPrefix(block, JsonFence);
    assert block[|JsonFence|..] == s + Fence;
    RemoveAllFreePrefix(s, Fence, JsonFence);
    RemoveAllShort(Fence, JsonFence);
    assert RemoveAll(block, JsonFence) == s + Fence;
    RemoveAllFreePrefix(s, Fence, Fence);
    assert RemoveAll(Fence, Fence) == [] by {
      assert HasPrefix(Fence, Fence);
      assert Fence[3..] == [];
    }
    assert s + [] == s;
  }

  /** Stripping is idempotent: the first pass leaves nothing to remove or
      trim. */
  lemma StripIdempotent(content: string)
    ensures StripFences(StripFences(content)) == StripFences(content)
  {
    var r := StripFences(content);
    NoFenceNoJsonFence(r);
    RemoveAllAbsent(r, JsonFence);
    RemoveAllAbsent(r, Fence);
    assert Trimmed(r);
  }

  /** "```json" starts with "```", so it cannot occur where "```" does not. */
  lemma NoFenceNoJsonFence(r: string)
    requires !Occurs(Fence, r)
    ensures !Occurs(JsonFence, r)
  {
    forall k | 0 <= k <= |r| ensures !HasPrefix(r[k..], JsonFence) {
      assert !HasPrefix(r[k..], Fence);
      if |r[k..]| >= 7 {
        assert r[k..][..3] == r[k..][..7][..3];
      }
    }
  }

  // ---------------------------------------------------------------------------
  // Damage analysis

  /** The message `content.replace` throws with when the reply carries no
      content (the wording is the JavaScript engine's; any non-empty text
      would do for the model). */
  const MissingContentMessage: string := "Cannot read properties of undefined (reading 'replace')"

  const AnalysisFallbackMessage: string := "Failed to analyze image"

  /** The message of the error `analyzeDamage` rethrows for a caught error
      with message `m`. */
  function Rethrown(m: string): (msg: string)
    ensures msg != []
    ensures m != [] ==> msg == m
  {
    if m != [] then m else AnalysisFallbackMessage
  }

  /** `analyzeDamage`: the reply's content is stripped of fences and parsed;
      the parsed value (possibly a falsy one such as `null`) is returned, and every failure (the call throwing,
      missing content, the parser throwing) comes back as an error carrying
      the original message or, when that is empty, the fixed fallback. */
  function AnalyzeDamage(reply: Reply, parse: string -> Result<Parsed, string>): (r: Result<Parsed, string>)
    ensures r.Failure? ==> r.error != []
    ensures reply.Threw? ==> r == Failure(Rethrown(reply.message))
    ensures reply.Returned? && reply.content.None? ==> r == Failure(MissingContentMessage)
    ensures reply.Returned? && reply.content.Some? ==>
      match parse(StripFences(reply.content.value))
      case Success(parsed) => r == Success(parsed)
      case Failure(m) => r == Failure(Rethrown(m))
  {
    match reply
    case Threw(m) => Failure(Rethrown(m))
    case Returned(None) => Failure(Rethrown(MissingContentMessage))
    case Returned(Some(content)) =>
      match parse(StripFences(content))
      case Success(parsed) => Success(parsed)
      case Failure(m) => Failure(Rethrown(m))
  }
}
