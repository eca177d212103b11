/** The data of the chat screen and everything computed from it: the chat and
    message records, the seed conversations, the per-chat update a send
    performs, the chat-list and message filters, the panel layout and the
    search highlight. Each function here is a pure function of the
    component's state. */
module ChatModel {
  import opened Text
  import opened Seqs

  /** Who wrote a message: `'me'` or `'other'`. */
  datatype Sender = Me | Other

  datatype Message = Message(id: int, content: string, sender: Sender, timestamp: string)

  datatype Chat = Chat(
    id: int,
    name: string,
    lastMessage: string,
    time: string,
    avatar: string,
    messages: seq<Message>)

  /** The label a chat's `time` gets when a message is sent to it. */
  const JustNow := "Just now"

  /** The conversations the component starts with. */
  const Seed: seq<Chat> := [JohnDoe, AliceSmith, BobJohnson]

  const JohnDoe := Chat(1, "John Doe", "See you tomorrow!", "10:30 AM",
    "https://images.unsplash.com/photo-1472099645785-5658abf4ff4e?w=100&h=100&fit=crop",
    [ Message(1, "Hey John, how are you?", Me, "10:00 AM"),
      Message(2, "I'm good, thanks! How about you?", Other, "10:05 AM"),
      Message(3, "Great! Are we meeting tomorrow?", Me, "10:15 AM"),
      Message(4, "Yes, at the usual place", Other, "10:20 AM"),
      Message(5, "See you tomorrow!", Other, "10:30 AM") ])

  const AliceSmith := Chat(2, "Alice Smith", "How are you?", "Yesterday",
    "https://images.unsplash.com/photo-1438761681033-6461ffad8d80?w=100&h=100&fit=crop",
    [ Message(1, "Hi Alice!", Me, "Yesterday"),
      Message(2, "How are you?", Other, "Yesterday") ])

  const BobJohnson := Chat(3, "Bob Johnson", "Great idea!", "Yesterday",
    "https://images.unsplash.com/photo-1500648767791-00dcc994a43e?w=100&h=100&fit=crop",
    [ Message(1, "What do you think about the project?", Me, "Yesterday"),
      Message(2, "Great idea!", Other, "Yesterday") ])

  // ---------------------------------------------------------------------
  // Selection

  /** The truthiness of `selectedChat` (a `number | null`): `null` and `0`
      are both "no chat selected". */
  predicate IsSelected(selected: Option<int>)
  {
    selected.Some? && selected.value != 0
  }

  /** `chat.id === selectedChat`; never true when the selection is `null`. */
  predicate HasId(chat: Chat, selected: Option<int>)
  {
    selected.Some? && chat.id == selected.value
  }

  /** `currentChat`: the first chat whose id is the selection, if any. */
  function CurrentChat(chats: seq<Chat>, selected: Option<int>): (r: Option<Chat>)
    ensures r.None? <==> forall i :: 0 <= i < |chats| ==> !HasId(chats[i], selected)
    ensures r.Some? ==> HasId(r.value, selected)
    ensures r.Some? ==> exists k :: 0 <= k < |chats| && r.value == chats[k] &&
                                    forall j :: 0 <= j < k ==> !HasId(chats[j], selected)
  {
    var k := FirstIndex(chats, (c: Chat) => HasId(c, selected));
    if k < |chats| then Some(chats[k]) else None
  }

  // ---------------------------------------------------------------------
  // Sending a message

  /** The guard of the send handler: the trimmed input is non-empty and the
      selection is truthy. */
  predicate CanSend(input: string, selected: Option<int>)
  {
    Trim(input) != [] && IsSelected(selected)
  }

  /** A send goes through exactly when the input holds a character other
      than whitespace and a chat id other than 0 is selected. */
  lemma CanSendIff(input: string, selected: Option<int>)
    ensures CanSend(input, selected) <==>
      (exists k :: 0 <= k < |input| && !IsSpace(input[k])) && selected != None && selected != Some(0)
  {
    TrimEmptyIff(input);
  }

  /** The message the send handler creates; its id and timestamp come from
      the clock and are parameters here. */
  function NewMessage(id: int, input: string, timestamp: string): (m: Message)
    ensures m.content == Trim(input) && m.sender == Me
    ensures m.id == id && m.timestamp == timestamp
  {
    Message(id, Trim(input), Me, timestamp)
  }

  /** The `map` over the chats that a send performs: each chat whose id is
      `target` gets `msg` appended, `summary` as its last message and the
      label "Just now" as its time; every other chat is returned as it was. */
  function AppendToChat(chats: seq<Chat>, target: int, msg: Message, summary: string): (r: seq<Chat>)
    ensures |r| == |chats|
    ensures forall i :: 0 <= i < |chats| && chats[i].id == target ==>
      r[i] == chats[i].(messages := chats[i].messages + [msg], lastMessage := summary, time := JustNow)
    ensures forall i :: 0 <= i < |chats| && chats[i].id != target ==> r[i] == chats[i]
  {
    if |chats| == 0 then []
    else
      var c := chats[0];
      var c' := if c.id == target
        then c.(messages := c.messages + [msg], lastMessage := summary, time := JustNow)
        else c;
      [c'] + AppendToChat(chats[1..], target, msg, summary)
  }

  /** A send changes neither the number nor the order of the chats, nor any
      chat's id, name and avatar. */
  lemma AppendKeepsChatList(chats: seq<Chat>, target: int, msg: Message, summary: string)
    ensures var r := AppendToChat(chats, target, msg, summary);
      |r| == |chats| &&
      forall i :: 0 <= i < |chats| ==>
        r[i].id == chats[i].id && r[i].name == chats[i].name && r[i].avatar == chats[i].avatar
  {
  }

  /** In the target chat the messages become the old ones plus one at the
      end; no message is lost, reordered or changed. */
  lemma AppendGrowsByOne(chats: seq<Chat>, target: int, msg: Message, summary: string, i: nat)
    requires i < |chats| && chats[i].id == target
    ensures var after := AppendToChat(chats, target, msg, summary)[i].messages;
      |after| == |chats[i].messages| + 1 &&
      after[..|chats[i].messages|] == chats[i].messages &&
      after[|chats[i].messages|] == msg
  {
    var before := chats[i].messages;
    assert (before + [msg])[..|before|] == before;
  }

  /** When no chat has the target id, a send leaves the chats as they were. */
  lemma AppendToMissingChat(chats: seq<Chat>, target: int, msg: Message, summary: string)
    requires forall i :: 0 <= i < |chats| ==> chats[i].id != target
    ensures AppendToChat(chats, target, msg, summary) == chats
  {
  }

  // ---------------------------------------------------------------------
  // The last-message summary

  /** A chat's `lastMessage` is the content of its last message. */
  ghost predicate SummaryMatches(c: Chat)
  {
    |c.messages| > 0 && c.lastMessage == c.messages[|c.messages| - 1].content
  }

  ghost predicate AllSummariesMatch(chats: seq<Chat>)
  {
    forall i :: 0 <= i < |chats| ==> SummaryMatches(chats[i])
  }

  /** The seed conversations satisfy the summary invariant. */
  lemma SeedSummariesMatch()
    ensures AllSummariesMatch(Seed)
  {
  }

  /** A send keeps the summary invariant, because the summary it writes is
      the content of the message it appends. */
  lemma AppendKeepsSummaries(chats: seq<Chat>, target: int, msg: Message, summary: string)
    requires AllSummariesMatch(chats)
    requires msg.content == summary
    ensures AllSummariesMatch(AppendToChat(chats, target, msg, summary))
  {
    var r := AppendToChat(chats, target, msg, summary);
    forall i | 0 <= i < |r| ensures SummaryMatches(r[i]) {
      if chats[i].id == target {
        assert r[i].messages == chats[i].messages + [msg];
      }
    }
  }

  /** The `time` field, unlike `lastMessage`, does not follow the last
      message: after a send it reads "Just now", not the new message's
      timestamp. */
  lemma AppendTimeIsNotTimestamp(chats: seq<Chat>, target: int, msg: Message, summary: string, i: nat)
    requires i < |chats| && chats[i].id == target
    requires msg.timestamp != JustNow
    ensures var c := AppendToChat(chats, target, msg, summary)[i];
      c.time != c.messages[|c.messages| - 1].timestamp
  {
  }

  // ---------------------------------------------------------------------
  // Trimmed message contents

  /** A message's content is non-empty and has no leading or trailing
      whitespace, so `trim` leaves it as it is (`TrimmedNonEmptyIff`). */
  ghost predicate ContentTrimmed(m: Message)
  {
    TrimmedNonEmpty(m.content)
  }

  /** The messages of `c` have non-empty contents that neither start nor
      end with whitespace. */
  ghost predicate ChatContentsTrimmed(c: Chat)
  {
    forall j :: 0 <= j < |c.messages| ==> ContentTrimmed(c.messages[j])
  }

  ghost predicate AllContentsTrimmed(chats: seq<Chat>)
  {
    forall i :: 0 <= i < |chats| ==> ChatContentsTrimmed(chats[i])
  }

  /** John Doe's seed messages have trimmed, non-empty contents. */
  lemma JohnDoeContentsTrimmed()
    ensures ChatContentsTrimmed(JohnDoe)
  {
    var ms := JohnDoe.messages;
    assert ms[0].content == "Hey John, how are you?";
    assert ms[1].content == "I'm good, thanks! How about you?";
    assert ms[2].content == "Great! Are we meeting tomorrow?";
    assert ms[3].content == "Yes, at the usual place";
    assert ms[4].content == "See you tomorrow!";
  }

  /** Alice Smith's seed messages have trimmed, non-empty contents. */
  lemma AliceSmithContentsTrimmed()
    ensures ChatContentsTrimmed(AliceSmith)
  {
    var ms := AliceSmith.messages;
    assert ms[0].content == "Hi Alice!";
    assert ms[1].content == "How are you?";
  }

  /** Bob Johnson's seed messages have trimmed, non-empty contents. */
  lemma BobJohnsonContentsTrimmed()
    ensures ChatContentsTrimmed(BobJohnson)
  {
    var ms := BobJohnson.messages;
    assert ms[0].content == "What do you think about the project?";
    assert ms[1].content == "Great idea!";
  }

  /** Every message of the seed conversations has a non-empty content that
      neither starts nor ends with whitespace. */
  lemma SeedContentsTrimmed()
    ensures AllContentsTrimmed(Seed)
  {
    JohnDoeContentsTrimmed();
    AliceSmithContentsTrimmed();
    BobJohnsonContentsTrimmed();
  }

  /** A message created by a send whose guard passed has a non-empty content
      that `trim` leaves unchanged. */
  lemma NewMessageTrimmed(id: int, input: string, timestamp: string)
    requires Trim(input) != []
    ensures ContentTrimmed(NewMessage(id, input, timestamp))
    ensures var t := NewMessage(id, input, timestamp).content; t != [] && Trim(t) == t
  {
    TrimIsTrimmed(input);
    TrimIdempotent(input);
  }

  /** A send of a message with trimmed, non-empty content keeps every
      message of every chat trimmed and non-empty. */
  lemma AppendKeepsContentsTrimmed(chats: seq<Chat>, target: int, msg: Message, summary: string)
    requires AllContentsTrimmed(chats)
    requires ContentTrimmed(msg)
    ensures AllContentsTrimmed(AppendToChat(chats, target, msg, summary))
  {
    var r := AppendToChat(chats, target, msg, summary);
    forall i | 0 <= i < |r| ensures ChatContentsTrimmed(r[i]) {
      if chats[i].id == target {
        assert r[i].messages == chats[i].messages + [msg];
      }
    }
  }


  // ---------------------------------------------------------------------
  // Filtering the chat list

  /** A chat matches the chat search when the lower-cased query occurs in
      its lower-cased name or in its lower-cased last message. */
  predicate ChatMatches(c: Chat, query: string)
  {
    Contains(Lower(c.name), Lower(query)) || Contains(Lower(c.lastMessage), Lower(query))
  }

  /** `filteredChats`. */
  function FilteredChats(chats: seq<Chat>, query: string): seq<Chat>
  {
    Filter(chats, (c: Chat) => ChatMatches(c, query))
  }

  /** `filteredChats` keeps the chats in their order, and keeps a chat, with
      all its copies, exactly when its name or last message contains the
      query, ignoring case. */
  lemma FilteredChatsSpec(chats: seq<Chat>, query: string)
    ensures var r := FilteredChats(chats, query);
      IsSubsequence(r, chats) &&
      (forall i :: 0 <= i < |r| ==> r[i] in chats && ChatMatches(r[i], query)) &&
      (forall i :: 0 <= i < |chats| ==> (chats[i] in r <==> ChatMatches(chats[i], query))) &&
      (forall c :: multiset(r)[c] == if ChatMatches(c, query) then multiset(chats)[c] else 0)
  {
  }

  /** With an empty query every chat is listed, in order. */
  lemma FilteredChatsEmptyQuery(chats: seq<Chat>)
    ensures FilteredChats(chats, "") == chats
  {
    forall i | 0 <= i < |chats| ensures ChatMatches(chats[i], "") {
      ContainsEmpty(Lower(chats[i].name));
    }
    FilterAll(chats, (c: Chat) => ChatMatches(c, ""));
  }

  // ---------------------------------------------------------------------
  // Filtering the messages of the current chat

  /** The message filter: an empty query (a falsy one) keeps every message,
      any other keeps the messages whose content contains it, ignoring case. */
  predicate MessageMatches(m: Message, query: string)
  {
    query == [] || Contains(Lower(m.content), Lower(query))
  }

  /** `filteredMessages`: absent when there is no current chat, otherwise the
      current chat's messages that pass the filter. The query applies whether
      or not message search is switched on. */
  function FilteredMessages(chats: seq<Chat>, selected: Option<int>, query: string): Option<seq<Message>>
  {
    match CurrentChat(chats, selected)
    case None => None
    case Some(c) => Some(Filter(c.messages, (m: Message) => MessageMatches(m, query)))
  }

  /** There are no messages to show exactly when no chat has the selected id. */
  lemma FilteredMessagesAbsent(chats: seq<Chat>, selected: Option<int>, query: string)
    ensures FilteredMessages(chats, selected, query).None? <==>
      forall i :: 0 <= i < |chats| ==> !HasId(chats[i], selected)
  {
  }

  /** With an empty query the current chat's messages are shown unfiltered. */
  lemma {:induction false} FilteredMessagesEmptyQuery(chats: seq<Chat>, selected: Option<int>)
    ensures CurrentChat(chats, selected).Some? ==>
      FilteredMessages(chats, selected, "") == Some(CurrentChat(chats, selected).value.messages)
  {
    if CurrentChat(chats, selected).Some? {
      var c := CurrentChat(chats, selected).value;
      FilterAll(c.messages, (m: Message) => MessageMatches(m, ""));
    }
  }

  /** With a non-empty query the shown messages are those of the current chat
      whose content contains the query, ignoring case, in their order and
      with all their copies. */
  lemma FilteredMessagesSpec(chats: seq<Chat>, selected: Option<int>, query: string)
    requires query != []
    ensures CurrentChat(chats, selected).Some? ==>
      var all := CurrentChat(chats, selected).value.messages;
      var r := FilteredMessages(chats, selected, query).value;
      IsSubsequence(r, all) &&
      (forall i :: 0 <= i < |r| ==> r[i] in all && Contains(Lower(r[i].content), Lower(query))) &&
      (forall i :: 0 <= i < |all| ==> (all[i] in r <==> Contains(Lower(all[i].content), Lower(query)))) &&
      (forall m :: multiset(r)[m] == if Contains(Lower(m.content), Lower(query)) then multiset(all)[m] else 0)
  {
  }

  // ---------------------------------------------------------------------
  // Layout and highlight

  /** `showChatList`. */
  predicate ShowChatList(narrow: bool, selected: Option<int>)
  {
    !narrow || (narrow && !IsSelected(selected))
  }

  /** `showChatArea`. */
  predicate ShowChatArea(narrow: bool, selected: Option<int>)
  {
    !narrow || (narrow && IsSelected(selected))
  }

  /** On a wide screen both panels are shown; on a narrow one exactly one is,
      the chat area exactly when a chat is selected. */
  lemma PanelRule(narrow: bool, selected: Option<int>)
    ensures !narrow ==> ShowChatList(narrow, selected) && ShowChatArea(narrow, selected)
    ensures narrow ==> ShowChatList(narrow, selected) != ShowChatArea(narrow, selected)
    ensures narrow ==> (ShowChatArea(narrow, selected) <==> IsSelected(selected))
  {
  }

  /** Whether a message bubble gets the search ring: the query is non-empty
      and the content contains it, ignoring case. */
  predicate Highlighted(m: Message, query: string)
  {
    query != [] && Contains(Lower(m.content), Lower(query))
  }

  /** With a non-empty query every shown message is highlighted, and every
      highlighted message of the current chat is shown. */
  lemma HighlightMatchesFilter(chats: seq<Chat>, selected: Option<int>, query: string)
    requires query != []
    ensures CurrentChat(chats, selected).Some? ==>
      var all := CurrentChat(chats, selected).value.messages;
      var r := FilteredMessages(chats, selected, query).value;
      (forall i :: 0 <= i < |r| ==> Highlighted(r[i], query)) &&
      (forall i :: 0 <= i < |all| ==> (Highlighted(all[i], query) <==> all[i] in r))
  {
  }

  /** With an empty query nothing is highlighted. */
  lemma NothingHighlightedWithoutQuery(m: Message)
    ensures !Highlighted(m, "")
  {
  }

  // ---------------------------------------------------------------------
  // Scenarios on the seed data

  /** Neither `lower` nor `upper` occurs in the chat's name or summary. */
  ghost predicate LacksLetter(c: Chat, lower: char, upper: char)
  {
    lower !in c.name && upper !in c.name && lower !in c.lastMessage && upper !in c.lastMessage
  }

  /** A chat does not match a lower-case query one of whose letters appears,
      in neither case, in its name or in its last message. */
  lemma ChatMissesLetter(c: Chat, query: string, k: nat, upper: char)
    requires Lower(query) == query
    requires k < |query| && 'a' <= query[k] <= 'z' && upper as int == query[k] as int - 32
    requires LacksLetter(c, query[k], upper)
    ensures !ChatMatches(c, query)
  {
    LowerMissing(c.name, query[k], upper);
    LowerMissing(c.lastMessage, query[k], upper);
    ContainsOnlyPresentChars(Lower(c.name), query, k);
    ContainsOnlyPresentChars(Lower(c.lastMessage), query, k);
  }

  /** Letters of "alice" and "zzz" that John Doe's chat lacks. */
  lemma JohnDoeLacksLetters()
    ensures LacksLetter(JohnDoe, 'a', 'A') && LacksLetter(JohnDoe, 'z', 'Z')
  {
    assert JohnDoe.name == "John Doe" && JohnDoe.lastMessage == "See you tomorrow!";
  }

  /** Letters of "zzz" that Alice Smith's chat lacks. */
  lemma AliceSmithLacksLetters()
    ensures LacksLetter(AliceSmith, 'z', 'Z')
  {
    assert AliceSmith.name == "Alice Smith" && AliceSmith.lastMessage == "How are you?";
  }

  /** Letters of "alice" and "zzz" that Bob Johnson's chat lacks. */
  lemma BobJohnsonLacksLetters()
    ensures LacksLetter(BobJohnson, 'l', 'L') && LacksLetter(BobJohnson, 'z', 'Z')
  {
    assert BobJohnson.name == "Bob Johnson" && BobJohnson.lastMessage == "Great idea!";
  }

  /** John Doe's and Bob Johnson's chats do not match "alice". */
  lemma SeedMissesAlice()
    ensures !ChatMatches(JohnDoe, "alice") && !ChatMatches(BobJohnson, "alice")
  {
    JohnDoeLacksLetters();
    BobJohnsonLacksLetters();
    LowerOfLower("alice");
    ChatMissesLetter(JohnDoe, "alice", 0, 'A');
    ChatMissesLetter(BobJohnson, "alice", 1, 'L');
  }

  /** Alice Smith's chat matches "alice", by its name. */
  lemma AliceSmithMatchesAlice()
    ensures ChatMatches(AliceSmith, "alice")
  {
    LowerOfLower("alice");
    assert Lower(AliceSmith.name)[..5] == "alice";
  }

  /** Searching the chat list for "alice" finds only Alice Smith's chat. */
  lemma SeedSearchAlice()
    ensures FilteredChats(Seed, "alice") == [Seed[1]]
  {
    SeedMissesAlice();
    AliceSmithMatchesAlice();
    var p := (c: Chat) => ChatMatches(c, "alice");
    assert Filter(Seed[2..], p) == [];
    assert Filter(Seed[1..], p) == [Seed[1]];
  }

  /** Searching the chat list for "zzz" finds nothing. */
  lemma SeedSearchNothing()
    ensures FilteredChats(Seed, "zzz") == []
  {
    JohnDoeLacksLetters();
    AliceSmithLacksLetters();
    BobJohnsonLacksLetters();
    LowerOfLower("zzz");
    ChatMissesLetter(JohnDoe, "zzz", 0, 'Z');
    ChatMissesLetter(AliceSmith, "zzz", 0, 'Z');
    ChatMissesLetter(BobJohnson, "zzz", 0, 'Z');
    var p := (c: Chat) => ChatMatches(c, "zzz");
    assert Filter(Seed[2..], p) == [];
    assert Filter(Seed[1..], p) == [];
  }

  /** The input "  See you soon!  " trims to "See you soon!". */
  lemma TrimSeeYouSoon()
    ensures Trim("  See you soon!  ") == "See you soon!"
  {
    var input := "  See you soon!  ";
    var t := "See you soon!  ";
    assert input[1..][1..] == t;
    assert !IsSpace(t[0]);
    assert LeadingSpaces(input) == 2;
    assert input[2..] == t;
    assert t[..14][..13] == "See you soon!";
    assert !IsSpace(t[12]);
    assert WithoutTrailingSpaces(t) == 13;
  }

  /** Sending "  See you soon!  " to John Doe's chat gives it a sixth message
      with the trimmed text, which also becomes its summary. */
  lemma SeedSendScenario(id: int, timestamp: string)
    ensures var input := "  See you soon!  ";
      var c := AppendToChat(Seed, 1, NewMessage(id, input, timestamp), Trim(input))[0];
      |c.messages| == 6 && c.messages[5].content == "See you soon!" &&
      c.messages[5].sender == Me && c.lastMessage == "See you soon!" && c.time == JustNow
  {
    TrimSeeYouSoon();
  }
}
