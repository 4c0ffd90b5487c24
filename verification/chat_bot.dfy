/**
 * The storefront chat window: a message log that only grows, typed messages and
 * quick-reply buttons from the customer, and canned bot replies that arrive
 * after a delay.
 */
module ChatBot {
  import opened Text
  import Seqs

  datatype Sender = User | Bot

  /** One log entry; `timestamp` is the creation time in milliseconds. */
  datatype ChatMessage = ChatMessage(id: string, message: string, sender: Sender, timestamp: int)

  const Greeting := "Hello! Welcome to Sandhi Wedanaharanie. How can I help you today?"

  const OrderReply := "Great choice! Our Sandhi Wedanaharanie is ₨3800 with free delivery across Sri Lanka. Would you like to place an order now?"
  const DeliveryReply := "Delivery across Sri Lanka takes 2-5 business days. We offer free delivery to all areas. You'll receive tracking information once your order ships."
  const TrackReply := "Please provide your order number and I'll help you track your order. You can find it in your confirmation email or SMS."
  const ProductReply := "Sandhi Wedanaharanie is a premium Ayurvedic formulation for natural joint pain relief. It's made with 100% natural ingredients following traditional recipes."
  const SupportReply := "You can reach our support team via WhatsApp at +94 XXX XXX XXX or email us at info@sandhiwedanaharanie.lk. We're here to help!"
  const DefaultReply := "I'm here to help! Please let me know what you'd like to know about our products or services."
  const TypedReply := "Thank you for your message! Our team will respond shortly. For immediate assistance, please use the quick replies above or contact us directly."

  /** The bot's answer to a quick-reply action. */
  function BotResponse(action: string): (r: string)
    ensures r != DefaultReply <==> action in {"order", "delivery", "track", "product", "support"}
  {
    if action == "order" then OrderReply
    else if action == "delivery" then DeliveryReply
    else if action == "track" then TrackReply
    else if action == "product" then ProductReply
    else if action == "support" then SupportReply
    else DefaultReply
  }

  datatype QuickReply = QuickReply(buttonLabel: string, action: string)

  const QuickReplies := [
    QuickReply("Order Now - ₨3800, free delivery", "order"),
    QuickReply("How long does delivery take?", "delivery"),
    QuickReply("Track my order", "track"),
    QuickReply("Product information", "product"),
    QuickReply("Contact support", "support")]

  /**
   * The buttons on screen: the first three quick replies, which offer ordering,
   * delivery times and tracking, each answered by its own canned reply.
   */
  function ShownQuickReplies(): (r: seq<QuickReply>)
    ensures |r| == 3 && r == QuickReplies[..|r|]
    ensures r[0].action == "order" && r[1].action == "delivery" && r[2].action == "track"
    ensures forall i :: 0 <= i < |r| ==> BotResponse(r[i].action) != DefaultReply
  {
    QuickReplies[..3]
  }

  /**
   * Each of the five actions has its own canned reply, none of them the default;
   * every other action gets the default.
   */
  lemma BotResponseSpec(action: string, other: string)
    ensures (exists i :: 0 <= i < |QuickReplies| && QuickReplies[i].action == action) <==> BotResponse(action) != DefaultReply
    ensures BotResponse(action) == BotResponse(other) && BotResponse(action) != DefaultReply ==> action == other
  {
    KnownActions(action);
    RepliesDistinct(action, other);
  }

  lemma KnownActions(action: string)
    ensures (exists i :: 0 <= i < |QuickReplies| && QuickReplies[i].action == action) <==> BotResponse(action) != DefaultReply
  {
    if BotResponse(action) != DefaultReply {
      var i := if action == "order" then 0 else if action == "delivery" then 1
        else if action == "track" then 2 else if action == "product" then 3 else 4;
      assert QuickReplies[i].action == action;
    }
  }

  lemma RepliesDistinct(action: string, other: string)
    ensures BotResponse(action) == BotResponse(other) && BotResponse(action) != DefaultReply ==> action == other
  {
  }

  /** `!s.trim()` holds exactly when skipping leading whitespace leaves nothing. */
  lemma {:induction false} BlankIffTrimmedEmpty(s: string)
    ensures IsBlank(s) <==> TrimStart(s) == []
  {
    if s != [] {
      BlankIffTrimmedEmpty(s[1..]);
      if IsJsWhitespace(s[0]) {
        assert IsBlank(s) <==> IsBlank(s[1..]);
      }
    }
  }

  function IsUser(m: ChatMessage): bool {
    m.sender == User
  }

  function IsBot(m: ChatMessage): bool {
    m.sender == Bot
  }

  lemma CountSnoc(s: seq<ChatMessage>, m: ChatMessage, p: ChatMessage -> bool)
    ensures Seqs.Count(s + [m], p) == Seqs.Count(s, p) + if p(m) then 1 else 0
  {
    Seqs.FilterAppend(s, [m], p);
  }

  class ChatWindow {
    var isOpen: bool
    var messages: seq<ChatMessage>
    var inputMessage: string
    /** Texts of the bot replies whose timers are still running, oldest first. */
    var pendingReplies: seq<string>

    /**
     * The greeting opens the log, and every customer message is answered by one
     * bot message, delivered or still pending.
     */
    ghost predicate Valid()
      reads this
    {
      && |messages| >= 1
      && messages[0] == ChatMessage("1", Greeting, Bot, messages[0].timestamp)
      && Seqs.Count(messages, IsUser) + 1 == Seqs.Count(messages, IsBot) + |pendingReplies|
    }

    /** The window as it first renders at time `now`: closed, holding only the greeting. */
    constructor (now: int)
      ensures Valid() && !isOpen && inputMessage == "" && pendingReplies == []
      ensures messages == [ChatMessage("1", Greeting, Bot, now)]
    {
      isOpen := false;
      messages := [ChatMessage("1", Greeting, Bot, now)];
      inputMessage := "";
      pendingReplies := [];
    }

    method SetInput(text: string)
      modifies this
      ensures inputMessage == text
      ensures messages == old(messages) && pendingReplies == old(pendingReplies) && isOpen == old(isOpen)
    {
      inputMessage := text;
    }

    /** The chat orb opens the window; the log is kept. */
    method Open()
      modifies this
      ensures isOpen
      ensures messages == old(messages) && inputMessage == old(inputMessage) && pendingReplies == old(pendingReplies)
    {
      isOpen := true;
    }

    /** The close button hides the window; the log is kept. */
    method Close()
      modifies this
      ensures !isOpen
      ensures messages == old(messages) && inputMessage == old(inputMessage) && pendingReplies == old(pendingReplies)
    {
      isOpen := false;
    }

    /**
     * `handleSendMessage` at time `now`: blank input changes nothing; otherwise the
     * input, untrimmed, is logged as the customer's, the box is cleared and the
     * standard reply is scheduled.
     */
    method HandleSendMessage(now: nat)
      requires Valid()
      modifies this
      ensures Valid() && isOpen == old(isOpen)
      ensures IsBlank(old(inputMessage)) ==>
        messages == old(messages) && inputMessage == old(inputMessage) && pendingReplies == old(pendingReplies)
      ensures !IsBlank(old(inputMessage)) ==>
        && messages == old(messages) + [ChatMessage(NatToString(now), old(inputMessage), User, now)]
        && inputMessage == ""
        && pendingReplies == old(pendingReplies) + [TypedReply]
    {
      if IsBlank(inputMessage) {
        return;
      }
      var userMessage := ChatMessage(NatToString(now), inputMessage, User, now);
      CountSnoc(messages, userMessage, IsUser);
      CountSnoc(messages, userMessage, IsBot);
      messages := messages + [userMessage];
      inputMessage := "";
      pendingReplies := pendingReplies + [TypedReply];
    }

    /** `handleQuickReply`: the button label logged as the customer's, and the action's reply scheduled. */
    method HandleQuickReply(action: string, buttonLabel: string, now: nat)
      requires Valid()
      modifies this
      ensures Valid() && isOpen == old(isOpen) && inputMessage == old(inputMessage)
      ensures messages == old(messages) + [ChatMessage(NatToString(now), buttonLabel, User, now)]
      ensures pendingReplies == old(pendingReplies) + [BotResponse(action)]
    {
      var userMessage := ChatMessage(NatToString(now), buttonLabel, User, now);
      CountSnoc(messages, userMessage, IsUser);
      CountSnoc(messages, userMessage, IsBot);
      messages := messages + [userMessage];
      pendingReplies := pendingReplies + [BotResponse(action)];
    }

    /** The oldest pending timer fires at time `now`: its reply is logged as the bot's. */
    method DeliverReply(now: nat)
      requires Valid() && pendingReplies != []
      modifies this
      ensures Valid() && isOpen == old(isOpen) && inputMessage == old(inputMessage)
      ensures messages == old(messages) + [ChatMessage(NatToString(now + 1), old(pendingReplies)[0], Bot, now)]
      ensures pendingReplies == old(pendingReplies)[1..]
    {
      var botMessage := ChatMessage(NatToString(now + 1), pendingReplies[0], Bot, now);
      CountSnoc(messages, botMessage, IsUser);
      CountSnoc(messages, botMessage, IsBot);
      messages := messages + [botMessage];
      pendingReplies := pendingReplies[1..];
    }
  }
}
