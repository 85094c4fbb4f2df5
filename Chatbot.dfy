/** POST `/chatbot` of routes/chatbot.js: the input check, the fixed answers
    `getHalldekhoReply` gives for known phrases, and the routing on the
    classified intent. The two calls to the external language model are
    function parameters: `classify` for `classifyIntent`, which receives the
    message, and `generate` for the answer, which receives the prompt. */
module Chatbot {
  import opened Common

  /** ASCII `toLowerCase`. */
  function ToLower(s: string): (r: string)
    ensures |r| == |s|
    ensures forall i :: 0 <= i < |s| ==> r[i] == (if 'A' <= s[i] <= 'Z' then (s[i] as int + 32) as char else s[i])
  {
    if s == [] then []
    else [if 'A' <= s[0] <= 'Z' then (s[0] as int + 32) as char else s[0]] + ToLower(s[1..])
  }

  /** Lower-casing twice is lower-casing once. */
  lemma ToLowerIdempotent(s: string)
    ensures ToLower(ToLower(s)) == ToLower(s)
  {
  }

  /** `p` occurs in `s` from position `i` on. */
  predicate OccursAt(s: string, p: string, i: int)
  {
    0 <= i <= |s| - |p| && s[i..i + |p|] == p
  }

  /** `s.includes(p)`. */
  predicate Contains(s: string, p: string)
  {
    exists i :: 0 <= i <= |s| - |p| && OccursAt(s, p, i)
  }

  /** The phrases of one `if` of `getHalldekhoReply` and its answer. */
  datatype Shortcut = Shortcut(phrases: seq<string>, reply: string)

  /** The `if`s of `getHalldekhoReply`, in the order they are tried. */
  const Shortcuts: seq<Shortcut> := [
    Shortcut(["what is halldekho"],
             "Halldekho is an online platform to discover, compare, and book marriage halls with ease."),
    Shortcut(["who is the founder of halldekho", "founder of halldekho", "founder of hall dekho"],
             "Halldekho was founded by Naman Gujral."),
    Shortcut(["who invented you"],
             "A team at Halldekho invented me."),
    Shortcut(["how does halldekho work", "how halldekho works"],
             "You can search for halls by location, view pricing, photos, and book appointments directly on Halldekho.")
  ]

  predicate MentionsAny(lower: string, phrases: seq<string>)
  {
    exists k :: 0 <= k < |phrases| && Contains(lower, phrases[k])
  }

  /** `getHalldekhoReply(message)`: the answer of the first `if` one of whose
      phrases the lower-cased message contains, or null. */
  function HalldekhoReply(message: string): (r: Option<string>)
    ensures r.None? <==> forall k :: 0 <= k < |Shortcuts| ==> !MentionsAny(ToLower(message), Shortcuts[k].phrases)
    ensures r.Some? ==> exists k :: 0 <= k < |Shortcuts| && r.value == Shortcuts[k].reply
                                    && MentionsAny(ToLower(message), Shortcuts[k].phrases)
                                    && forall m :: 0 <= m < k ==> !MentionsAny(ToLower(message), Shortcuts[m].phrases)
  {
    var lower := ToLower(message);
    match FirstWhere(Shortcuts, (e: Shortcut) => MentionsAny(lower, e.phrases))
    case None => None
    case Some(k) => Some(Shortcuts[k].reply)
  }

  /** Matching ignores case: a message and its lower-cased form get the same
      answer. */
  lemma ShortcutIgnoresCase(message: string)
    ensures HalldekhoReply(ToLower(message)) == HalldekhoReply(message)
  {
    ToLowerIdempotent(message);
  }

  /** The body field `message`: absent, present but not a string, or a string. */
  datatype MessageField = Missing | NotAString | Text(s: string)

  /** `!message || typeof message !== 'string'`. */
  predicate ValidMessage(m: MessageField)
  {
    m.Text? && m.s != ""
  }

  /** What `classifyIntent` hands back: the trimmed, lower-cased label (absent
      when the answer has none), or the failure it turns into "irrelevant". */
  datatype Classification = Label(text: Option<string>) | ClassifierError

  function Intent(c: Classification): (intent: Option<string>)
    ensures c.ClassifierError? ==> intent == Some("irrelevant")
    ensures c.Label? ==> intent == c.text
  {
    match c
    case ClassifierError => Some("irrelevant")
    case Label(l) => l
  }

  /** The outcome of the answer request: the text of the first part of the
      first candidate (absent when missing), or a failed request. */
  datatype Generation = Generated(text: Option<string>) | GenerationError

  const Refusal: string := "I'm here to help with wedding or Halldekho-related queries. Please ask accordingly."
  const Fallback: string := "Sorry, I couldn't generate a proper response."

  function CasualPrompt(message: string): string
  {
    "Reply briefly and casually to this message: \"" + message + "\""
  }

  function BriefPrompt(message: string): string
  {
    "Answer briefly in 4-5 lines only in plain text. Do not use any special characters like *, -, or markdown. Just provide clean sentences. Question: \""
      + message + "\""
  }

  datatype PromptKind = Casual | Brief

  /** The prompt for a non-irrelevant intent: the casual one for small talk,
      the brief one for every other label and for no label at all. */
  function PromptKindFor(intent: Option<string>): (k: PromptKind)
    ensures k == Casual <==> intent == Some("small_talk")
  {
    if intent == Some("small_talk") then Casual else Brief
  }

  function PromptText(k: PromptKind, message: string): string
  {
    match k
    case Casual => CasualPrompt(message)
    case Brief => BriefPrompt(message)
  }

  /** The pair backslash, `n` that the pattern `/\\n/g` matches. */
  predicate EscapedNewlineAt(s: string, i: int)
  {
    0 <= i && i + 1 < |s| && s[i] == '\\' && s[i + 1] == 'n'
  }

  /** `replace(/\\n/g, '\n')`: each backslash-`n` pair, scanned left to right,
      becomes one newline character. */
  function UnescapeNewlines(s: string): string
  {
    if |s| >= 2 && s[0] == '\\' && s[1] == 'n' then "\n" + UnescapeNewlines(s[2..])
    else if s == [] then []
    else [s[0]] + UnescapeNewlines(s[1..])
  }

  /** The first character of the result: a newline if a pair starts the
      string, its own first character otherwise. */
  lemma {:induction false} UnescapeHead(s: string)
    requires s != []
    ensures UnescapeNewlines(s) != []
    ensures UnescapeNewlines(s)[0] == if EscapedNewlineAt(s, 0) then '\n' else s[0]
  {
  }

  /** No backslash-`n` pair survives the replacement. */
  lemma {:induction false} NoEscapedNewlineRemains(s: string)
    ensures forall i :: !EscapedNewlineAt(UnescapeNewlines(s), i)
    decreases |s|
  {
    var r := UnescapeNewlines(s);
    if |s| >= 2 && s[0] == '\\' && s[1] == 'n' {
      NoEscapedNewlineRemains(s[2..]);
      forall i ensures !EscapedNewlineAt(r, i) {
        if 1 <= i {
          assert !EscapedNewlineAt(UnescapeNewlines(s[2..]), i - 1);
        }
      }
    } else if s != [] {
      NoEscapedNewlineRemains(s[1..]);
      assert r == [s[0]] + UnescapeNewlines(s[1..]);
      forall i ensures !EscapedNewlineAt(r, i) {
        if i == 0 && |s| >= 2 {
          UnescapeHead(s[1..]);
          assert r[1] == UnescapeNewlines(s[1..])[0];
        } else if 1 <= i {
          assert !EscapedNewlineAt(UnescapeNewlines(s[1..]), i - 1);
        }
      }
    }
  }

  /** A reply without any backslash-`n` pair is passed on unchanged. */
  lemma {:induction false} UnescapeKeepsPlainText(s: string)
    requires forall i :: !EscapedNewlineAt(s, i)
    ensures UnescapeNewlines(s) == s
    decreases |s|
  {
    if s != [] {
      assert forall i :: !EscapedNewlineAt(s[1..], i) by {
        forall i ensures !EscapedNewlineAt(s[1..], i) {
          assert !EscapedNewlineAt(s, i + 1);
        }
      }
      UnescapeKeepsPlainText(s[1..]);
      assert !EscapedNewlineAt(s, 0);
      assert s == [s[0]] + s[1..];
    }
  }

  datatype ChatAnswer = InvalidInput | Reply(text: string) | ServiceFailed

  function StatusCode(a: ChatAnswer): int
  {
    match a
    case InvalidInput => 400
    case Reply(_) => 200
    case ServiceFailed => 500
  }

  /** The answer built from the model's reply: 500 for a failed request,
      otherwise the text, or the fallback sentence when it is empty or
      missing, with its escaped newlines replaced. */
  function Finish(g: Generation): ChatAnswer
  {
    match g
    case GenerationError => ServiceFailed
    case Generated(text) => Reply(UnescapeNewlines(OrElse(text, Fallback)))
  }

  /** POST `/chatbot`. */
  function Chat(message: MessageField, classify: string -> Classification, generate: string -> Generation)
    : (a: ChatAnswer)
    ensures a == InvalidInput <==> !ValidMessage(message)
    ensures ValidMessage(message) && HalldekhoReply(message.s).Some? ==> a == Reply(HalldekhoReply(message.s).value)
    ensures ValidMessage(message) && HalldekhoReply(message.s).None? && Intent(classify(message.s)) == Some("irrelevant")
            ==> a == Reply(Refusal)
    ensures ValidMessage(message) && HalldekhoReply(message.s).None? && Intent(classify(message.s)) != Some("irrelevant")
            ==> a == Finish(generate(PromptText(PromptKindFor(Intent(classify(message.s))), message.s)))
  {
    if !ValidMessage(message) then InvalidInput
    else
      match HalldekhoReply(message.s)
      case Some(reply) => Reply(reply)
      case None =>
        var intent := Intent(classify(message.s));
        if intent == Some("irrelevant") then Reply(Refusal)
        else Finish(generate(PromptText(PromptKindFor(intent), message.s)))
  }

  /** A known phrase is answered without consulting the language model. */
  lemma ShortcutNeedsNoModel(message: string, c1: string -> Classification, c2: string -> Classification,
                             g1: string -> Generation, g2: string -> Generation)
    requires message != "" && HalldekhoReply(message).Some?
    ensures Chat(Text(message), c1, g1) == Chat(Text(message), c2, g2)
  {
  }

  /** A failed classification ends in the fixed refusal, without an answer
      request. */
  lemma ClassifierErrorRefuses(message: string, classify: string -> Classification,
                               g1: string -> Generation, g2: string -> Generation)
    requires message != "" && HalldekhoReply(message).None? && classify(message) == ClassifierError
    ensures Chat(Text(message), classify, g1) == Reply(Refusal)
    ensures Chat(Text(message), classify, g1) == Chat(Text(message), classify, g2)
  {
  }

  /** A generated reply never contains a backslash-`n` pair, an empty or
      missing text yields the fallback sentence, and only a failed request
      answers 500. */
  lemma GeneratedReplyHasNoEscapes(g: Generation)
    ensures Finish(g) == ServiceFailed <==> g.GenerationError?
    ensures g.Generated? ==> Finish(g).Reply? && forall i :: !EscapedNewlineAt(Finish(g).text, i)
    ensures g.Generated? && !Truthy(g.text) ==> Finish(g) == Reply(UnescapeNewlines(Fallback))
  {
    if g.Generated? {
      NoEscapedNewlineRemains(OrElse(g.text, Fallback));
    }
  }
}
