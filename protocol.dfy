/** The wire protocol of the chat server: its constants, the notices it sends,
    the classification of an input line into a command, and the fixed
    outputs of /help and /list. */
module Protocol {
  import opened Strings
  import opened Fmt

  const MAX_CLIENTS := 10

  const CMD_PREFIX := "/"
  const CMD_CREATE := CMD_PREFIX + "create"
  const CMD_LIST := CMD_PREFIX + "list"
  const CMD_JOIN := CMD_PREFIX + "join"
  const CMD_LEAVE := CMD_PREFIX + "leave"
  const CMD_HELP := CMD_PREFIX + "help"
  const CMD_NAME := CMD_PREFIX + "name"
  const CMD_QUIT := CMD_PREFIX + "quit"

  const CLIENT_NAME := "Anonymous"

  const ERROR_PREFIX := "Error: "
  const ERROR_SEND := ERROR_PREFIX + "You cannot send messages in the lobby.\n"
  const ERROR_CREATE := ERROR_PREFIX + "A chat room with that name already exists.\n"
  const ERROR_JOIN := ERROR_PREFIX + "A chat room with that name does not exist.\n"
  const ERROR_LEAVE := ERROR_PREFIX + "You cannot leave the lobby.\n"

  const NOTICE_PREFIX := "Notice: "
  const NOTICE_ROOM_JOIN := NOTICE_PREFIX + "\"%s\" joined the chat room.\n"
  const NOTICE_ROOM_LEAVE := NOTICE_PREFIX + "\"%s\" left the chat room.\n"
  const NOTICE_ROOM_NAME := NOTICE_PREFIX + "\"%s\" changed their name to \"%s\".\n"
  const NOTICE_ROOM_DELETE := NOTICE_PREFIX + "Chat room is inactive and being deleted.\n"
  const NOTICE_PERSONAL_CREATE := NOTICE_PREFIX + "Created chat room \"%s\".\n"
  // This format has no verb, although the server passes it the new name.
  const NOTICE_PERSONAL_NAME := NOTICE_PREFIX + "Changed name to \"\".\n"

  const MSG_CONNECT := "Welcome to the server! Type \"/help\" to get a list of commands.\n"

  /** EXPIRY_TIME, 7 * 24 hours, as a time.Duration: nanoseconds. */
  const EXPIRY_TIME := 7 * 24 * 3600 * 1_000_000_000

  // ---------------------------------------------------------------------
  // The notice formats split around their verbs.

  lemma JoinFormat()
    ensures NOTICE_ROOM_JOIN == "Notice: \"" + "%s" + "\" joined the chat room.\n"
  {
  }

  lemma LeaveFormat()
    ensures NOTICE_ROOM_LEAVE == "Notice: \"" + "%s" + "\" left the chat room.\n"
  {
  }

  lemma RenameFormat()
    ensures NOTICE_ROOM_NAME == "Notice: \"" + "%s" + "\" changed their name to \"" + "%s" + "\".\n"
  {
  }

  lemma CreatedFormat()
    ensures NOTICE_PERSONAL_CREATE == "Notice: Created chat room \"" + "%s" + "\".\n"
  {
  }

  // ---------------------------------------------------------------------
  // Notices: the formats above applied with fmt.Sprintf.

  /** fmt.Sprintf(NOTICE_ROOM_JOIN, name) */
  function JoinNotice(name: string): (r: string)
    ensures r == "Notice: \"" + name + "\" joined the chat room.\n"
  {
    JoinFormat();
    SprintfOne("Notice: \"", "\" joined the chat room.\n", name);
    Sprintf(NOTICE_ROOM_JOIN, [name])
  }

  /** fmt.Sprintf(NOTICE_ROOM_LEAVE, name) */
  function LeaveNotice(name: string): (r: string)
    ensures r == "Notice: \"" + name + "\" left the chat room.\n"
  {
    LeaveFormat();
    SprintfOne("Notice: \"", "\" left the chat room.\n", name);
    Sprintf(NOTICE_ROOM_LEAVE, [name])
  }

  /** fmt.Sprintf(NOTICE_ROOM_NAME, oldName, newName): the old name comes first. */
  function RenameNotice(oldName: string, newName: string): (r: string)
    ensures r == "Notice: \"" + oldName + "\" changed their name to \"" + newName + "\".\n"
  {
    RenameFormat();
    SprintfTwo("Notice: \"", "\" changed their name to \"", "\".\n", oldName, newName);
    Sprintf(NOTICE_ROOM_NAME, [oldName, newName])
  }

  /** fmt.Sprintf(NOTICE_PERSONAL_CREATE, name) */
  function CreatedNotice(name: string): (r: string)
    ensures r == "Notice: Created chat room \"" + name + "\".\n"
  {
    CreatedFormat();
    SprintfOne("Notice: Created chat room \"", "\".\n", name);
    Sprintf(NOTICE_PERSONAL_CREATE, [name])
  }

  /** fmt.Sprintf(NOTICE_PERSONAL_NAME, name): the format has no verb, so Go
      keeps the text as it is and reports the name as an extra argument. The
      name never appears between the quotes. */
  function PersonalNameNotice(name: string): (r: string)
    ensures r == NOTICE_PERSONAL_NAME + "%!(EXTRA string=" + name + ")"
    ensures r != "Notice: Changed name to \"" + name + "\".\n"
  {
    assert '%' !in NOTICE_PERSONAL_NAME;
    SprintfExtra(NOTICE_PERSONAL_NAME, name);
    var r := Sprintf(NOTICE_PERSONAL_NAME, [name]);
    assert r[|r| - 1] == ')';
    r
  }

  /** fmt.Sprintf("%s\n", name): one line of the /list output. */
  function RoomLine(name: string): (r: string)
    ensures r == name + "\n"
  {
    SprintfOne("", "\n", name);
    assert "" + "%s" + "\n" == "%s\n";
    Sprintf("%s\n", [name])
  }

  // ---------------------------------------------------------------------
  // Commands.

  /** What Lobby.Parse does with a line: one of the seven commands, or Send
      (pass the line to SendMessage as a chat message). */
  datatype Command =
    | Create(name: string)
    | List
    | Join(name: string)
    | Leave
    | Name(name: string)
    | Help
    | Quit
    | Send

  /** The command words, in the order Parse tests them. */
  const COMMANDS := [CMD_CREATE, CMD_LIST, CMD_JOIN, CMD_LEAVE, CMD_NAME, CMD_HELP, CMD_QUIT]

  /** Position of a command's word in COMMANDS. */
  function Rank(c: Command): (i: nat)
    requires !c.Send?
    ensures i < |COMMANDS|
  {
    match c
    case Create(_) => 0
    case List => 1
    case Join(_) => 2
    case Leave => 3
    case Name(_) => 4
    case Help => 5
    case Quit => 6
  }

  /** The command word that selects `c`. */
  function Keyword(c: Command): string
    requires !c.Send?
  {
    COMMANDS[Rank(c)]
  }

  /** The argument of a command line: the text with a leading "<cmd> "
      removed if present, then a trailing "\n" removed if present. */
  function Argument(text: string, cmd: string): (r: string)
    ensures HasPrefix(text, cmd + " ") && HasSuffix(text, "\n") ==> text == cmd + " " + r + "\n"
    ensures HasPrefix(text, cmd + " ") && !HasSuffix(text, "\n") ==> text == cmd + " " + r
    ensures !HasPrefix(text, cmd + " ") && HasSuffix(text, "\n") ==> text == r + "\n"
    ensures !HasPrefix(text, cmd + " ") && !HasSuffix(text, "\n") ==> text == r
  {
    var t := TrimPrefix(text, cmd + " ");
    // After a removed "<cmd> ", `t` ends where `text` ends, and it is not
    // empty when `text` ends in a newline, because "<cmd> " ends in a space.
    assert HasPrefix(text, cmd + " ") ==>
      && text == cmd + " " + t && text[|text| - 1] == (if t == [] then ' ' else t[|t| - 1]);
    TrimSuffix(t, "\n")
  }

  /** Lobby.Parse's classification: the first command word in COMMANDS that
      is a prefix of the text wins; a line that starts with none of them is a
      chat message. */
  function Classify(text: string): (c: Command)
    ensures c.Send? <==> forall i :: 0 <= i < |COMMANDS| ==> !HasPrefix(text, COMMANDS[i])
    ensures !c.Send? ==> HasPrefix(text, Keyword(c))
    ensures !c.Send? ==> forall i :: 0 <= i < Rank(c) ==> !HasPrefix(text, COMMANDS[i])
    ensures c.Create? || c.Join? || c.Name? ==> c.name == Argument(text, Keyword(c))
  {
    assert COMMANDS[0] == CMD_CREATE && COMMANDS[1] == CMD_LIST && COMMANDS[2] == CMD_JOIN;
    assert COMMANDS[3] == CMD_LEAVE && COMMANDS[4] == CMD_NAME && COMMANDS[5] == CMD_HELP;
    assert COMMANDS[6] == CMD_QUIT;
    if HasPrefix(text, CMD_CREATE) then Create(Argument(text, CMD_CREATE))
    else if HasPrefix(text, CMD_LIST) then List
    else if HasPrefix(text, CMD_JOIN) then Join(Argument(text, CMD_JOIN))
    else if HasPrefix(text, CMD_LEAVE) then Leave
    else if HasPrefix(text, CMD_NAME) then Name(Argument(text, CMD_NAME))
    else if HasPrefix(text, CMD_HELP) then Help
    else if HasPrefix(text, CMD_QUIT) then Quit
    else Send
  }

  /** The line a user types for a command: the word, then a space and the
      argument for the three commands that take one. */
  function CommandLine(c: Command): string
    requires !c.Send?
  {
    match c
    case Create(n) => CMD_CREATE + " " + n
    case Join(n) => CMD_JOIN + " " + n
    case Name(n) => CMD_NAME + " " + n
    case _ => Keyword(c)
  }

  /** Two words that differ at a position both have cannot both prefix a text. */
  lemma NoOtherPrefix(text: string, w: string, v: string, k: nat)
    requires HasPrefix(text, w) && k < |w| && k < |v| && w[k] != v[k]
    ensures !HasPrefix(text, v)
  {
  }

  /** Every command, typed as documented with an argument that does not end
      in a newline, is classified as itself. */
  lemma ClassifyCommandLine(c: Command)
    requires !c.Send?
    requires c.Create? || c.Join? || c.Name? ==> !HasSuffix(c.name, "\n")
    ensures Classify(CommandLine(c)) == c
  {
    var text := CommandLine(c);
    var w := Keyword(c);
    assert HasPrefix(text, w) by {
      if c.Create? || c.Join? || c.Name? {
        assert text == w + (" " + c.name);
        assert text[..|w|] == w;
      } else {
        assert text == w;
      }
    }
    // The second letters of the command words tell them apart, except
    // "/list" and "/leave", which differ at the third.
    assert COMMANDS[0][1] == 'c' && COMMANDS[1][1] == 'l' && COMMANDS[2][1] == 'j';
    assert COMMANDS[3][1] == 'l' && COMMANDS[4][1] == 'n' && COMMANDS[5][1] == 'h';
    assert COMMANDS[6][1] == 'q' && COMMANDS[1][2] == 'i' && COMMANDS[3][2] == 'e';
    forall i | 0 <= i < Rank(c) ensures !HasPrefix(text, COMMANDS[i]) {
      if Rank(c) == 3 && i == 1 {
        NoOtherPrefix(text, w, COMMANDS[i], 2);
      } else {
        NoOtherPrefix(text, w, COMMANDS[i], 1);
      }
    }
    if c.Create? || c.Join? || c.Name? {
      assert text == (w + " ") + c.name;
      TrimPrefixPrepended(w + " ", c.name);
    }
  }

  /** The prefix quirk: a command word with text glued on (no space) is
      still that command, and the whole text becomes the argument, so
      "/createfoo" creates a room named "/createfoo" and "/create" alone one
      named "/create". */
  lemma GluedArgument(w: string, s: string)
    requires w == CMD_CREATE || w == CMD_JOIN || w == CMD_NAME
    requires !HasPrefix(s, " ") && !HasSuffix(w + s, "\n")
    ensures Classify(w + s) == if w == CMD_CREATE then Create(w + s)
                               else if w == CMD_JOIN then Join(w + s)
                               else Name(w + s)
  {
    var text := w + s;
    assert text[..|w|] == w;
    assert !HasPrefix(text, w + " ") by {
      assert |s| > 0 ==> s[..1] == text[|w|..|w| + 1];
    }
    if w == CMD_JOIN {
      NoOtherPrefix(text, w, CMD_CREATE, 1);
      NoOtherPrefix(text, w, CMD_LIST, 1);
    } else if w == CMD_NAME {
      NoOtherPrefix(text, w, CMD_CREATE, 1);
      NoOtherPrefix(text, w, CMD_LIST, 1);
      NoOtherPrefix(text, w, CMD_JOIN, 1);
      NoOtherPrefix(text, w, CMD_LEAVE, 1);
    }
  }

  /** A line that does not start with "/" is always a chat message. */
  lemma PlainTextIsSend(text: string)
    requires !HasPrefix(text, CMD_PREFIX)
    ensures Classify(text) == Send
  {
    forall i | 0 <= i < |COMMANDS| ensures !HasPrefix(text, COMMANDS[i]) {
      assert COMMANDS[i][..1] == CMD_PREFIX;
    }
  }

  // ---------------------------------------------------------------------
  // Fixed outputs.

  /** The ten strings Lobby.Help sends. */
  const HELP_TEXT: seq<string> := [
    "\n",
    "Commands:\n",
    "/help - lists all commands\n",
    "/list - lists all chat rooms\n",
    "/create foo - creates a chat room named foo\n",
    "/join foo - joins a chat room named foo\n",
    "/leave - leaves the current chat room\n",
    "/name foo - changes your name to foo\n",
    "/quit - quits the program\n",
    "\n"
  ]

  /** One line per room name, in the given order. */
  function RoomLines(names: seq<string>): (r: seq<string>)
    ensures |r| == |names|
    ensures forall i :: 0 <= i < |names| ==> r[i] == RoomLine(names[i])
  {
    if names == [] then [] else [RoomLine(names[0])] + RoomLines(names[1..])
  }

  /** Visiting one more room adds its line at the end. */
  lemma RoomLinesAppend(names: seq<string>, n: string)
    ensures RoomLines(names + [n]) == RoomLines(names) + [RoomLine(n)]
  {
  }

  /** What Lobby.ListChatRooms sends when it visits the rooms in `names` order. */
  function RoomListing(names: seq<string>): (r: seq<string>)
    ensures |r| == |names| + 3
    ensures r[..2] == ["\n", "Chat Rooms:\n"] && r[|names| + 2] == "\n"
    ensures forall i :: 0 <= i < |names| ==> r[i + 2] == names[i] + "\n"
  {
    ["\n", "Chat Rooms:\n"] + RoomLines(names) + ["\n"]
  }

  /** The room lines show exactly the names visited. */
  lemma RoomLinesShow(names: seq<string>, n: string)
    ensures n + "\n" in RoomLines(names) <==> n in names
  {
    var body := RoomLines(names);
    if n in names {
      var i :| 0 <= i < |names| && names[i] == n;
      assert body[i] == n + "\n";
    }
    if n + "\n" in body {
      var i :| 0 <= i < |body| && body[i] == n + "\n";
      TrimSuffixAppended(names[i], "\n");
      TrimSuffixAppended(n, "\n");
    }
  }

  /** Between the header and the closing blank line, the listing shows
      exactly the names visited. */
  lemma RoomListingShows(names: seq<string>, n: string)
    ensures n + "\n" in RoomListing(names)[2..|names| + 2] <==> n in names
  {
    var body := RoomLines(names);
    assert RoomListing(names)[2..|names| + 2] == body;
    RoomLinesShow(names, n);
  }
}
