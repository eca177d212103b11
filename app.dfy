/** The `App` component's state and its event handlers. Each handler is one
    atomic transition that reads the state before the event and writes the
    fields it sets; the window-width test and the clock are parameters. */
module App {
  import opened Text
  import opened Seqs
  import opened ChatModel

  class ChatApp {
    var chats: seq<Chat>
    var selectedChat: Option<int>
    var messageInput: string
    var searchQuery: string
    var messageSearchQuery: string
    var isSearchingMessages: bool
    var isMobileView: bool

    /** The invariants over the current chats: every summary is the last
        message's content, and no message content is empty or has leading
        or trailing whitespace. */
    ghost predicate Valid()
      reads this`chats
    {
      AllSummariesMatch(chats) && AllContentsTrimmed(chats)
    }

    /** The initial state: the seed chats with John Doe's selected, every text
        field empty, message search off. `narrow` is the outcome of the
        window-width test. */
    constructor (narrow: bool)
      ensures Valid()
      ensures chats == Seed && selectedChat == Some(1)
      ensures messageInput == "" && searchQuery == "" && messageSearchQuery == ""
      ensures !isSearchingMessages && isMobileView == narrow
    {
      chats := Seed;
      selectedChat := Some(1);
      messageInput := "";
      searchQuery := "";
      messageSearchQuery := "";
      isSearchingMessages := false;
      isMobileView := narrow;
      SeedSummariesMatch();
      SeedContentsTrimmed();
    }

    /** `handleSendMessage`, with the clock's id and formatted time passed
        in. When the trimmed input is non-empty and the selection truthy,
        every chat with the selected id gets the new message at the end, the
        trimmed input as summary and "Just now" as time, and the input is
        cleared (even when no chat has that id); otherwise nothing changes. */
    method SendMessage(id: int, timestamp: string)
      modifies this`chats, this`messageInput
      ensures CanSend(old(messageInput), selectedChat) ==>
        chats == AppendToChat(old(chats), selectedChat.value,
                              NewMessage(id, old(messageInput), timestamp), Trim(old(messageInput))) &&
        messageInput == ""
      ensures !CanSend(old(messageInput), selectedChat) ==>
        chats == old(chats) && messageInput == old(messageInput)
      ensures old(Valid()) ==> Valid()
    {
      var text := Trim(messageInput);
      if text != [] && IsSelected(selectedChat) {
        var msg := NewMessage(id, messageInput, timestamp);
        if Valid() {
          AppendKeepsSummaries(chats, selectedChat.value, msg, text);
          NewMessageTrimmed(id, messageInput, timestamp);
          AppendKeepsContentsTrimmed(chats, selectedChat.value, msg, text);
        }
        chats := AppendToChat(chats, selectedChat.value, msg, text);
        messageInput := "";
      }
    }

    /** `handleBackToList`: no chat is selected any more, so on a narrow
        screen the list is shown instead of the chat area. */
    method BackToList()
      modifies this`selectedChat
      ensures selectedChat == None
      ensures ShowChatList(isMobileView, selectedChat)
      ensures isMobileView ==> !ShowChatArea(isMobileView, selectedChat)
    {
      selectedChat := None;
    }

    /** Clicking a chat in the list selects its id; on a narrow screen the
        chat area then replaces the list, unless the id is 0, which the
        layout treats as no selection. */
    method SelectChat(chatId: int)
      modifies this`selectedChat
      ensures selectedChat == Some(chatId)
      ensures ShowChatArea(isMobileView, selectedChat) <==> !isMobileView || chatId != 0
      ensures isMobileView ==> (ShowChatList(isMobileView, selectedChat) <==> chatId == 0)
    {
      selectedChat := Some(chatId);
    }

    /** `toggleMessageSearch`: flips message search; switching it on empties
        the message query, switching it off keeps the query, which then goes
        on filtering the messages. */
    method ToggleMessageSearch()
      modifies this`isSearchingMessages, this`messageSearchQuery
      ensures isSearchingMessages == !old(isSearchingMessages)
      ensures !old(isSearchingMessages) ==> messageSearchQuery == ""
      ensures old(isSearchingMessages) ==> messageSearchQuery == old(messageSearchQuery)
    {
      var wasSearching := isSearchingMessages;
      isSearchingMessages := !wasSearching;
      if !wasSearching {
        messageSearchQuery := "";
      }
    }

    /** The message input's change handler. */
    method SetMessageInput(text: string)
      modifies this`messageInput
      ensures messageInput == text
    {
      messageInput := text;
    }

    /** The chat search box's change handler and its clear button (with
        `text` empty). */
    method SetSearchQuery(text: string)
      modifies this`searchQuery
      ensures searchQuery == text
    {
      searchQuery := text;
    }

    /** The message search box's change handler and its clear button (with
        `text` empty). */
    method SetMessageSearchQuery(text: string)
      modifies this`messageSearchQuery
      ensures messageSearchQuery == text
    {
      messageSearchQuery := text;
    }

    /** The resize listener, given the new outcome of the width test. */
    method Resize(narrow: bool)
      modifies this`isMobileView
      ensures isMobileView == narrow
    {
      isMobileView := narrow;
    }
  }

  /** On a narrow screen, with no selection only the list is shown; picking
      chat 2 shows only its chat area; going back shows only the list again. */
  method NarrowScreenScenario()
  {
    var c := new ChatApp(true);
    c.BackToList();
    assert ShowChatList(c.isMobileView, c.selectedChat) && !ShowChatArea(c.isMobileView, c.selectedChat);
    c.SelectChat(2);
    assert !ShowChatList(c.isMobileView, c.selectedChat) && ShowChatArea(c.isMobileView, c.selectedChat);
    c.BackToList();
    assert ShowChatList(c.isMobileView, c.selectedChat) && !ShowChatArea(c.isMobileView, c.selectedChat);
  }

  /** In a valid state whose selection is the first chat's id, typing a
      text with a character other than whitespace and sending it appends
      the trimmed text to that chat, makes it the summary, clears the input
      and keeps the invariants; sending again with the now empty input
      changes nothing. */
  method SendTwice(c: ChatApp, input: string, id: int, timestamp: string)
    requires c.Valid() && |c.chats| > 0 && c.selectedChat == Some(c.chats[0].id) && c.chats[0].id != 0
    requires Trim(input) != []
    modifies c
  {
    var first := c.chats[0];
    c.SetMessageInput(input);
    c.SendMessage(id, timestamp);
    assert c.chats[0].messages == first.messages + [Message(id, Trim(input), Me, timestamp)];
    assert c.chats[0].lastMessage == Trim(input) && c.messageInput == "" && c.Valid();
    var before := c.chats;
    c.SendMessage(id + 1, timestamp);
    assert c.chats == before;
  }

  /** The same in the initial state, where the first chat is John Doe's. */
  method SendScenario(id: int, timestamp: string)
  {
    var c := new ChatApp(false);
    TrimSeeYouSoon();
    SendTwice(c, "  See you soon!  ", id, timestamp);
  }
}
