/**
 * The vocal-health assistant page: a keyword classifier that picks one of six fixed
 * replies, and the conversation it keeps as a list of messages.
 */
module Chatbot {

  import Strings

  const HoarsenessReply: string := "Hoarseness can be caused by vocal strain, infection, or reflux. Try resting your voice, staying hydrated, and avoiding irritants like smoking. If it persists for more than 2 weeks, please consult a voice specialist."
  const SoreThroatReply: string := "Sore throats can be caused by infections, dryness, or vocal strain. Try gargling with warm salt water, staying hydrated, and using throat lozenges. If you have severe pain or it lasts more than a week, please see a doctor."
  const ExerciseReply: string := "Great question! Some beneficial vocal exercises include lip trills, humming scales, and gentle sirens. Check our Exercises page for detailed instructions and demonstrations."
  const HydrationReply: string := "Staying hydrated is crucial for vocal health! Aim for 8-10 glasses of water daily. Room temperature water is best for your vocal folds. Avoid excessive caffeine and alcohol as they can be dehydrating."
  const WarmUpReply: string := "Vocal warm-ups are essential before extended speaking or singing. Try gentle humming, lip trills, or tongue twisters for 5-10 minutes. This helps prevent strain and improves vocal quality."
  const DefaultReply: string := "I'm here to help with vocal health questions. You can ask about vocal exercises, hydration, warm-ups, or specific voice issues like hoarseness or vocal strain."

  /** The replies in the order their rules are tried. */
  const Replies: seq<string> :=
    [HoarsenessReply, SoreThroatReply, ExerciseReply, HydrationReply, WarmUpReply, DefaultReply]

  const GreetingText: string := "Hello! I'm your vocal health assistant. How can I help you today?"

  /** Rule `k` of the classifier, checked against the already lower-cased input; rule 5 always applies. */
  predicate RuleMatches(k: nat, text: string)
  {
    match k
    case 0 => Strings.Contains(text, "hoarse") || Strings.Contains(text, "hoarseness")
    case 1 => Strings.Contains(text, "sore throat") || Strings.Contains(text, "pain")
    case 2 => Strings.Contains(text, "vocal") && Strings.Contains(text, "exercise")
    case 3 => Strings.Contains(text, "water") || Strings.Contains(text, "hydration")
    case 4 => Strings.Contains(text, "warm up") || Strings.Contains(text, "warmup")
    case _ => k == 5
  }

  /** `getBotResponse(userInput)`: the if/else chain over `includes` on the lower-cased text. */
  function GetBotResponse(userInput: string): (reply: string)
    ensures reply in Replies
  {
    Classify(Strings.AsciiLower(userInput))
  }

  /** The if/else chain of `getBotResponse` on the already lower-cased `input`. */
  function Classify(input: string): (reply: string)
    ensures reply in Replies
  {
    if Strings.Contains(input, "hoarse") || Strings.Contains(input, "hoarseness") then HoarsenessReply
    else if Strings.Contains(input, "sore throat") || Strings.Contains(input, "pain") then SoreThroatReply
    else if Strings.Contains(input, "vocal") && Strings.Contains(input, "exercise") then ExerciseReply
    else if Strings.Contains(input, "water") || Strings.Contains(input, "hydration") then HydrationReply
    else if Strings.Contains(input, "warm up") || Strings.Contains(input, "warmup") then WarmUpReply
    else DefaultReply
  }

  lemma RepliesDistinct()
    ensures forall i, j :: 0 <= i < j < |Replies| ==> Replies[i] != Replies[j]
  {
    assert |HoarsenessReply| == 215 && |SoreThroatReply| == 222 && |ExerciseReply| == 173;
    assert |HydrationReply| == 200 && |WarmUpReply| == 188 && |DefaultReply| == 159;
  }

  /**
   * The first rule that matches decides the reply: the reply is `Replies[k]` exactly when
   * rule `k` matches the lower-cased input and no earlier rule does.
   */
  lemma FirstMatchingRuleWins(userInput: string, k: nat)
    requires k < |Replies|
    ensures var text := Strings.AsciiLower(userInput);
            GetBotResponse(userInput) == Replies[k]
            <==> RuleMatches(k, text) && forall j :: 0 <= j < k ==> !RuleMatches(j, text)
  {
    RepliesDistinct();
    var text := Strings.AsciiLower(userInput);
    // The index of the first rule that matches; the reply is the one at that index.
    var first: nat :=
      if RuleMatches(0, text) then 0 else if RuleMatches(1, text) then 1
      else if RuleMatches(2, text) then 2 else if RuleMatches(3, text) then 3
      else if RuleMatches(4, text) then 4 else 5;
    assert GetBotResponse(userInput) == Replies[first];
    assert RuleMatches(first, text) && forall j :: 0 <= j < first ==> !RuleMatches(j, text);
  }

  /** Matching ignores the case of ASCII letters: lower-casing the input first changes nothing. */
  lemma CaseInsensitive(userInput: string)
    ensures GetBotResponse(Strings.AsciiLower(userInput)) == GetBotResponse(userInput)
  {
    Strings.AsciiLowerIdempotent(userInput);
  }

  /** The 'hoarseness' test never decides anything: whatever contains it contains 'hoarse'. */
  lemma HoarsenessImpliesHoarse(text: string)
    ensures Strings.Contains(text, "hoarseness") ==> Strings.Contains(text, "hoarse")
  {
    if Strings.Contains(text, "hoarseness") {
      var w := "hoarseness";
      assert w[0..|"hoarse"|] == "hoarse";
      Strings.OccurrenceContained(w, "hoarse", 0);
      Strings.ContainsTransitive(text, w, "hoarse");
    }
  }

  /** The exercise reply needs both words; 'vocal' alone or 'exercise' alone falls through. */
  lemma ExerciseNeedsBoth(userInput: string)
    requires var text := Strings.AsciiLower(userInput);
             !Strings.Contains(text, "vocal") || !Strings.Contains(text, "exercise")
    ensures GetBotResponse(userInput) != ExerciseReply
  {
    RepliesDistinct();
  }

  datatype Sender = User | Bot

  datatype Message = Message(id: string, content: string, sender: Sender)

  const Greeting: Message := Message("1", GreetingText, Bot)

  /**
   * A conversation opens with the greeting; after it, messages come in pairs of a user
   * message and the reply the classifier gives to that message's text.
   */
  ghost predicate Conversation(messages: seq<Message>)
  {
    && |messages| % 2 == 1
    && messages[0] == Greeting
    && forall i :: 1 <= i < |messages| && i % 2 == 1 ==>
         messages[i].sender == User && i + 1 < |messages|
         && messages[i + 1].sender == Bot
         && messages[i + 1].content == GetBotResponse(messages[i].content)
  }

  /** Appending one exchange of a user message and the classifier's reply keeps a conversation. */
  lemma ExchangeKeepsConversation(messages: seq<Message>, question: Message, answer: Message)
    requires Conversation(messages)
    requires question.sender == User && answer.sender == Bot
    requires answer.content == GetBotResponse(question.content)
    ensures Conversation(messages + [question, answer])
  {
    var after := messages + [question, answer];
    forall i | 1 <= i < |after| && i % 2 == 1
      ensures after[i].sender == User && i + 1 < |after| && after[i + 1].sender == Bot
              && after[i + 1].content == GetBotResponse(after[i].content)
    {
      if i < |messages| {
        assert after[i] == messages[i] && after[i + 1] == messages[i + 1];
      } else {
        assert i == |messages| && after[i] == question && after[i + 1] == answer;
      }
    }
  }

  /**
   * The chat page's state: the text in the input box and the conversation. The reply that
   * the page schedules for one second later is appended within the same step here.
   */
  class ChatSession {
    var input: string
    var messages: seq<Message>

    ghost predicate Valid()
      reads this
    {
      Conversation(messages)
    }

    /** The page as it is first shown: an empty input box and the greeting. */
    constructor ()
      ensures Valid()
      ensures input == "" && messages == [Greeting]
    {
      input := "";
      messages := [Greeting];
    }

    /** The input box's `onChange`. */
    method SetInput(text: string)
      modifies this`input
      ensures input == text
    {
      input := text;
    }

    /**
     * `handleSendMessage`, with the clock readings used for the message ids: `sentAt` when
     * the user message is made and `repliedAt` when the reply is made.
     */
    method SendMessage(sentAt: nat, repliedAt: nat)
      requires Valid()
      modifies this
      ensures Valid()
      ensures Strings.IsBlank(old(input)) ==> input == old(input) && messages == old(messages)
      ensures !Strings.IsBlank(old(input)) ==>
        && input == ""
        && messages == old(messages) + [
             Message(Strings.NatToDecimal(sentAt), old(input), User),
             Message(Strings.NatToDecimal(repliedAt + 1), GetBotResponse(old(input)), Bot)]
    {
      if Strings.IsBlank(input) {
        return;
      }
      var text := input;
      var userMessage := Message(Strings.NatToDecimal(sentAt), text, User);
      messages := messages + [userMessage];
      input := "";
      var botMessage := Message(Strings.NatToDecimal(repliedAt + 1), GetBotResponse(text), Bot);
      ExchangeKeepsConversation(old(messages), userMessage, botMessage);
      messages := messages + [botMessage];
      assert messages == old(messages) + [userMessage, botMessage];
    }
  }

  /** When the reply is made no earlier than the user message, the two ids differ. */
  lemma ExchangeIdsDistinct(sentAt: nat, repliedAt: nat)
    requires sentAt <= repliedAt
    ensures Strings.NatToDecimal(sentAt) != Strings.NatToDecimal(repliedAt + 1)
  {
    if Strings.NatToDecimal(sentAt) == Strings.NatToDecimal(repliedAt + 1) {
      Strings.NatToDecimalInjective(sentAt, repliedAt + 1);
    }
  }
}
