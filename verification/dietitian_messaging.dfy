/** The dietitian's chat page (`pages/dietitian/DietitianMessaging.tsx`):
    the canned customer reply chosen by keywords, the conversation search,
    and sending a message.

    Clocks, timers and the 70% chance of a reply are parameters; the reply
    itself is only its text. `toLowerCase` is ASCII case folding here. */
module DietitianMessaging {
  import opened Wrappers
  import opened Strings
  import opened Seqs

  /** The subject a dietitian's message is taken to be about, in the order
      the reply rules test them. */
  datatype Topic = MealPlan | Nutrients | Allergy | Exercise | Veggie | Other

  /** The words that select each subject. */
  function Keywords(t: Topic): seq<string> {
    match t
    case MealPlan => ["meal plan", "diet plan"]
    case Nutrients => ["protein", "carb", "calorie"]
    case Allergy => ["allerg", "intolerance"]
    case Exercise => ["exercise", "workout"]
    case Veggie => ["veggie", "vegetarian", "vegan"]
    case Other => []
  }

  /** Whether a lower-cased text mentions one of the subject's words. */
  predicate Mentions(lowered: string, t: Topic) {
    exists k :: 0 <= k < |Keywords(t)| && Contains(lowered, Keywords(t)[k])
  }

  /** The subject of a message: the first subject, in rule order, whose
      words occur in the lower-cased message; `Other` when none does. */
  function Classify(message: string): (t: Topic)
    ensures var m := Lower(message);
      (t == MealPlan <==> Mentions(m, MealPlan))
      && (t == Nutrients <==> !Mentions(m, MealPlan) && Mentions(m, Nutrients))
      && (t == Allergy <==> !Mentions(m, MealPlan) && !Mentions(m, Nutrients) && Mentions(m, Allergy))
      && (t == Exercise <==> !Mentions(m, MealPlan) && !Mentions(m, Nutrients) && !Mentions(m, Allergy)
                             && Mentions(m, Exercise))
      && (t == Veggie <==> !Mentions(m, MealPlan) && !Mentions(m, Nutrients) && !Mentions(m, Allergy)
                           && !Mentions(m, Exercise) && Mentions(m, Veggie))
    ensures t != Other ==> Mentions(Lower(message), t)
  {
    var m := Lower(message);
    if Mentions(m, MealPlan) then MealPlan
    else if Mentions(m, Nutrients) then Nutrients
    else if Mentions(m, Allergy) then Allergy
    else if Mentions(m, Exercise) then Exercise
    else if Mentions(m, Veggie) then Veggie
    else Other
  }

  /** The canned customer answer for each subject. */
  function ReplyFor(t: Topic): string {
    match t
    case MealPlan => "Thanks for the information! When can I expect to receive my personalized meal plan?"
    case Nutrients =>
      "I see. I've been trying to maintain a 1800 calorie diet. Do you have any specific Bumba Fresh meals you would recommend?"
    case Allergy => "Yes, I have a nut allergy. Could you verify which of your meals are completely nut-free?"
    case Exercise =>
      "I usually work out 3-4 times a week, mostly strength training. Should I adjust my meal choices on workout days?"
    case Veggie => "Do you have plant-based protein options available in your meal selections?"
    case Other => "Thank you for the advice! I'll definitely keep that in mind when choosing my next order."
  }

  /** `generateUserReply`. */
  function GenerateUserReply(dietitianMessage: string): string {
    ReplyFor(Classify(dietitianMessage))
  }

  /** The reply does not depend on letter case. */
  lemma ReplyIgnoresCase(message: string)
    ensures GenerateUserReply(Lower(message)) == GenerateUserReply(message)
  {
    ClassifyIgnoresCase(message);
  }

  /** The subject does not depend on letter case. */
  lemma ClassifyIgnoresCase(message: string)
    ensures Classify(Lower(message)) == Classify(message)
  {
    LowerIdempotent(message);
  }

  /** A message about a meal plan keeps getting the meal-plan answer
      whatever is said after it: that rule comes first. */
  lemma MealPlanWinsWhateverFollows(message: string, more: string)
    requires Classify(message) == MealPlan
    ensures Classify(message + more) == MealPlan
  {
    var m := Lower(message);
    var k :| 0 <= k < |Keywords(MealPlan)| && Contains(m, Keywords(MealPlan)[k]);
    LowerConcat(message, more);
    ContainsExtended(m, Lower(more), Keywords(MealPlan)[k]);
  }

  /** A conversation of the list. */
  datatype Conversation = Conversation(
    id: string, userId: string, userName: string, userEmail: string,
    lastMessage: string, lastMessageTime: int, unreadCount: nat)

  /** Whether a conversation passes the search: an empty query passes;
      otherwise the query occurs, ignoring case, in the customer's name, the
      e-mail or the last message. */
  predicate SearchMatches(c: Conversation, query: string) {
    query == ""
    || ContainsIgnoringCase(c.userName, query) || ContainsIgnoringCase(c.userEmail, query)
    || ContainsIgnoringCase(c.lastMessage, query)
  }

  function Matcher(query: string): Conversation -> bool {
    (c: Conversation) => SearchMatches(c, query)
  }

  /** `filteredConversations`: the conversations passing the search, in
      list order. */
  function FilteredConversations(conversations: seq<Conversation>, searchQuery: string): (r: seq<Conversation>)
    ensures forall i :: 0 <= i < |r| ==> r[i] in conversations && SearchMatches(r[i], searchQuery)
    ensures forall c :: c in conversations && SearchMatches(c, searchQuery) ==> c in r
    ensures searchQuery == "" ==> r == conversations
  {
    Filter(conversations, Matcher(searchQuery))
  }

  /** The search does not depend on the letter case of the query. */
  lemma SearchIgnoresQueryCase(conversations: seq<Conversation>, searchQuery: string)
    requires searchQuery != ""
    ensures FilteredConversations(conversations, Lower(searchQuery)) == FilteredConversations(conversations, searchQuery)
  {
    LowerIdempotent(searchQuery);
    assert Lower(searchQuery) != "" by { assert |Lower(searchQuery)| == |searchQuery|; }
    FilterSamePredicate(conversations, Matcher(Lower(searchQuery)), Matcher(searchQuery));
  }

  /** A conversation whose customer name is exactly the query is always
      found. */
  lemma NameSearchFindsConversation(conversations: seq<Conversation>, c: Conversation)
    requires c in conversations
    ensures c in FilteredConversations(conversations, c.userName)
  {
    ContainsSelf(Lower(c.userName));
  }

  /** Who wrote a chat message. */
  datatype Sender = Dietitian | Customer

  /** A chat message; `id` is `msg-` and the clock reading. */
  datatype ChatMessage = ChatMessage(id: string, content: string, sender: Sender, read: bool)

  /** The page's state: the conversation list, the messages on screen, the
      per-conversation message store and the input box. */
  datatype Chat = Chat(
    conversations: seq<Conversation>, messages: seq<ChatMessage>,
    store: map<string, seq<ChatMessage>>, input: string)

  /** Whether a conversation is the one with the given id. */
  function IsConversation(id: string): Conversation -> bool {
    (c: Conversation) => c.id == id
  }

  /** The conversation update after sending: new last message and time. */
  function Touch(text: string, now: int): Conversation -> Conversation {
    (c: Conversation) => c.(lastMessage := text, lastMessageTime := now)
  }

  /** `handleSendMessage`: nothing when the trimmed input is empty or no
      conversation is open. Otherwise the trimmed text is appended as a
      read dietitian message, stored under the open conversation, becomes
      that conversation's last message, and the input is cleared. */
  function SendMessage(st: Chat, activeConversation: Option<string>, now: nat): (r: Chat)
    ensures Trim(st.input) == "" || activeConversation.None? ==> r == st
    ensures Trim(st.input) != "" && activeConversation.Some? ==>
      var text := Trim(st.input);
      r.messages == st.messages + [ChatMessage("msg-" + NatToString(now), text, Dietitian, true)]
      && activeConversation.value in r.store && r.store[activeConversation.value] == r.messages
      && (forall k :: k in st.store && k != activeConversation.value ==> k in r.store && r.store[k] == st.store[k])
      && r.input == ""
      && |r.conversations| == |st.conversations|
      && (forall i :: 0 <= i < |st.conversations| ==>
            r.conversations[i] == if st.conversations[i].id == activeConversation.value
                                  then st.conversations[i].(lastMessage := text, lastMessageTime := now)
                                  else st.conversations[i])
  {
    if Trim(st.input) == "" || activeConversation.None? then st
    else
      var text := Trim(st.input);
      var active := activeConversation.value;
      var updated := st.messages + [ChatMessage("msg-" + NatToString(now), text, Dietitian, true)];
      Chat(SetWhere(st.conversations, IsConversation(active), Touch(text, now)),
           updated, st.store[active := updated], "")
  }

  /** A send grows the screen by exactly one message and can be repeated
      only after new text is typed: the second send of the same input does
      nothing. */
  lemma SendOnceThenIdle(st: Chat, activeConversation: Option<string>, now: nat, later: nat)
    ensures var once := SendMessage(st, activeConversation, now);
      SendMessage(once, activeConversation, later) == once
      && |once.messages| <= |st.messages| + 1
  {
    var once := SendMessage(st, activeConversation, now);
    if once != st {
      assert Trim(once.input) == "";
    }
  }
}
