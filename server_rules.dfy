/** The server's read-only rules: which nicknames are refused, which nickname
    a new client gets, the colour-name table, how an incoming message is
    classified, and the texts of the server's notices and replies. */
module ServerRules {
  import opened Text
  import opened ChatMessages

  /** A rename is accepted only for names shorter than this. */
  const NicknameLimit: nat := 18
  /** CreateNickName tries the numerals 0 .. 999. */
  const NicknameSearchBound: nat := 1000

  const ReservedName: string := "server"
  const ColorKeyword: string := "color"
  const NicknameKeyword: string := "nickname"

  /** CheckIfNameTaken's three refusals: "server" in any letter case, a name
      holding '#', and an exact (case-sensitive) match of a current nickname. */
  predicate NameTaken(name: string, nicknames: seq<string>)
  {
    Lower(name) == ReservedName || '#' in name || name in nicknames
  }

  method CheckIfNameTaken(name: string, nicknames: seq<string>) returns (taken: bool)
    ensures taken <==> NameTaken(name, nicknames)
  {
    if Lower(name) == ReservedName {
      return true;
    }
    if '#' in name {
      return true;
    }
    var i := 0;
    while i < |nicknames|
      invariant 0 <= i <= |nicknames|
      invariant name !in nicknames[..i]
    {
      if nicknames[i] == name {
        return true;
      }
      i := i + 1;
    }
    assert nicknames[..i] == nicknames;
    return false;
  }

  /** What every nickname on the server satisfies: it can be sent as one
      '#'-field and as one space-separated word, and it is not the server's. */
  predicate ValidNickname(name: string)
  {
    '#' !in name && ' ' !in name && Lower(name) != ReservedName
  }

  /** No user's nickname can be the speaker of the server's notices. */
  lemma {:induction false} ServerNameReserved(name: string)
    requires ValidNickname(name)
    ensures name != ServerName
  {
  }

  /** A decimal numeral is a valid nickname. */
  lemma {:induction false} NumeralIsValidNickname(s: string)
    requires s != [] && AllDigits(s)
    ensures ValidNickname(s)
  {
    assert LowerChar(s[0]) == s[0];
    assert Lower(s)[0] != ReservedName[0];
  }

  /** The least i in from .. 999 whose numeral is not a current nickname. */
  function FirstFree(nicknames: seq<string>, from: nat): (r: Option<nat>)
    requires from <= NicknameSearchBound
    ensures r.Some? ==> from <= r.value < NicknameSearchBound && NatToString(r.value) !in nicknames
    ensures r.Some? ==> forall j :: from <= j < r.value ==> NatToString(j) in nicknames
    ensures r.None? ==> forall j :: from <= j < NicknameSearchBound ==> NatToString(j) in nicknames
    decreases NicknameSearchBound - from
  {
    if from == NicknameSearchBound then None
    else if NatToString(from) !in nicknames then Some(from)
    else FirstFree(nicknames, from + 1)
  }

  /** CreateNickName: the id's numeral when free, otherwise the first free
      numeral below 1000, and the id's numeral again when none is free. */
  function DefaultNickname(id: nat, nicknames: seq<string>): (r: string)
    ensures NatToString(id) !in nicknames ==> r == NatToString(id)
    ensures r != [] && AllDigits(r)
  {
    if NatToString(id) !in nicknames then NatToString(id)
    else match FirstFree(nicknames, 0)
      case Some(i) => NatToString(i)
      case None => NatToString(id)
  }

  /** The default nickname is new whenever some candidate is free; only
      when the id's numeral and all of 0 .. 999 are taken does it repeat one. */
  lemma {:induction false} DefaultNicknameFresh(id: nat, nicknames: seq<string>, i: nat)
    requires i < NicknameSearchBound && NatToString(i) !in nicknames
    ensures DefaultNickname(id, nicknames) !in nicknames
  {
    var _ := FirstFree(nicknames, 0);
  }

  /** When the id's numeral is taken, the default is the least free numeral. */
  lemma {:induction false} DefaultNicknameLeast(id: nat, nicknames: seq<string>, i: nat)
    requires NatToString(id) in nicknames
    requires NatToString(i) !in nicknames && i < NicknameSearchBound
    ensures exists k :: 0 <= k <= i && DefaultNickname(id, nicknames) == NatToString(k)
              && forall j :: 0 <= j < k ==> NatToString(j) in nicknames
  {
    var f := FirstFree(nicknames, 0);
    assert f.Some?;
    assert f.value <= i;
  }

  /** The loop of CreateNickName. */
  method CreateNickName(id: nat, nicknames: seq<string>) returns (nickname: string)
    ensures nickname == DefaultNickname(id, nicknames)
  {
    if NatToString(id) in nicknames {
      for i := 0 to NicknameSearchBound
        invariant forall j :: 0 <= j < i ==> NatToString(j) in nicknames
      {
        if NatToString(i) !in nicknames {
          var f := FirstFree(nicknames, 0);
          assert f.Some? && f.value == i;
          return NatToString(i);
        }
      }
      var f := FirstFree(nicknames, 0);
      assert f.None?;
    }
    return NatToString(id);
  }

  /** The thirteen colour names HandleColorChangeRequest accepts, with their
      ConsoleColor codes; the name is compared after lower-casing. */
  function ColorCode(name: string): (r: Option<nat>)
  {
    if name == "darkblue" then Some(1)
    else if name == "darkcyan" then Some(3)
    else if name == "darkred" then Some(4)
    else if name == "darkmagenta" then Some(5)
    else if name == "darkyellow" then Some(6)
    else if name == "gray" then Some(7)
    else if name == "darkgray" then Some(8)
    else if name == "blue" then Some(9)
    else if name == "cyan" then Some(11)
    else if name == "red" then Some(12)
    else if name == "magenta" then Some(13)
    else if name == "yellow" then Some(14)
    else if name == "white" then Some(15)
    else None
  }

  /** The codes accepted are exactly these thirteen; black (0), dark green (2)
      and green (10) cannot be chosen. */
  lemma {:induction false} ColorCodes(name: string)
    ensures ColorCode(name).Some? ==> ColorCode(name).value in {1, 3, 4, 5, 6, 7, 8, 9, 11, 12, 13, 14, 15}
  {
  }

  /** Two names never share a code. */
  lemma {:induction false} ColorCodeInjective(a: string, b: string)
    requires ColorCode(a).Some? && ColorCode(a) == ColorCode(b)
    ensures a == b
  {
  }

  /** What HandleMessages does with one received message. */
  datatype Command =
    | ColorRequest(color: string)
    | RenameRequest(nickname: string)
    | Quit
    | ChatText(text: string)

  /** HandleMessages' test for a request: two words, the first of them the
      keyword in any letter case. */
  predicate IsRequest(message: string, keyword: string)
  {
    var words := Split(message, ' ');
    |words| == 2 && Lower(words[0]) == keyword
  }

  /** The dispatch of HandleMessages: a two-word message whose first word is
      "color" or "nickname" in any letter case is a request; "get out" ends
      the session; everything else is chat. */
  function Classify(message: string): (c: Command)
    ensures c.ColorRequest? <==> IsRequest(message, ColorKeyword)
    ensures c.RenameRequest? <==> IsRequest(message, NicknameKeyword)
    ensures c == Quit <==> message == QuitCommand
    ensures c.ChatText? <==> !IsRequest(message, ColorKeyword) && !IsRequest(message, NicknameKeyword)
                             && message != QuitCommand
    ensures c.ColorRequest? ==> c.color == Split(message, ' ')[1] && ' ' !in c.color
    ensures c.RenameRequest? ==> c.nickname == Split(message, ' ')[1] && ' ' !in c.nickname
    ensures c.ChatText? ==> c.text == message
  {
    QuitIsNoRequest();
    var words := Split(message, ' ');
    if Lower(words[0]) == ColorKeyword && |words| == 2 then ColorRequest(words[1])
    else if Lower(words[0]) == NicknameKeyword && |words| == 2 then RenameRequest(words[1])
    else if message == QuitCommand then Quit
    else ChatText(message)
  }

  /** "get out" is not a request: its first word is "get". */
  lemma {:induction false} QuitIsNoRequest()
    ensures !IsRequest(QuitCommand, ColorKeyword) && !IsRequest(QuitCommand, NicknameKeyword)
  {
    SplitTwoWords("get", "out");
    assert QuitCommand == "get" + " " + "out";
    assert Lower("get")[0] == 'g';
  }

  /** Splitting "w1 w2" on a space, both words space-free, gives the two words. */
  lemma {:induction false} SplitTwoWords(w1: string, w2: string)
    requires ' ' !in w1 && ' ' !in w2
    ensures Split(w1 + " " + w2, ' ') == [w1, w2]
  {
    SplitAfter(w1, ' ', w2);
    SplitSingle(w2, ' ');
  }

  /** A keyword typed in any letter case is one word. */
  lemma {:induction false} KeywordHasNoSpace(typed: string, keyword: string)
    requires Lower(typed) == keyword && ' ' !in keyword
    ensures ' ' !in typed
  {
    forall k | 0 <= k < |typed| ensures typed[k] != ' ' {
      assert LowerChar(typed[k]) == keyword[k];
    }
  }

  /** Typing either keyword in any letter case, followed by one word, asks
      for that change. */
  lemma {:induction false} ClassifyRequestAnyCase(typed: string, w: string)
    requires ' ' !in w
    ensures Lower(typed) == ColorKeyword ==> Classify(typed + " " + w) == ColorRequest(w)
    ensures Lower(typed) == NicknameKeyword ==> Classify(typed + " " + w) == RenameRequest(w)
  {
    if Lower(typed) == ColorKeyword || Lower(typed) == NicknameKeyword {
      KeywordHasNoSpace(typed, Lower(typed));
      SplitTwoWords(typed, w);
      assert ColorKeyword[0] != NicknameKeyword[0];
    }
  }

  /** "server" is refused in every mix of capitals and small letters, and
      only those. */
  lemma {:induction false} ReservedNameAnyCase(name: string)
    ensures Lower(name) == ReservedName
        <==> (|name| == |ReservedName|
              && forall k :: 0 <= k < |name| ==> name[k] == ReservedName[k] || name[k] == UpperChar(ReservedName[k]))
  {
    if |name| == |ReservedName| {
      forall k | 0 <= k < |name|
        ensures LowerChar(name[k]) == ReservedName[k] <==> name[k] == ReservedName[k] || name[k] == UpperChar(ReservedName[k])
      {
        assert 'a' <= ReservedName[k] <= 'z';
        LowerCharIs(name[k], ReservedName[k]);
      }
      if Lower(name) != ReservedName {
        var k :| 0 <= k < |name| && Lower(name)[k] != ReservedName[k];
        assert LowerChar(name[k]) != ReservedName[k];
      }
    }
  }

  /** The text a client types for each command. */
  function CommandText(c: Command): string
  {
    match c
    case ColorRequest(w) => ColorKeyword + " " + w
    case RenameRequest(w) => NicknameKeyword + " " + w
    case Quit => QuitCommand
    case ChatText(t) => t
  }

  /** Commands a client can express: request arguments are one word, and a
      chat text is neither a request nor "get out". */
  predicate Expressible(c: Command)
  {
    match c
    case ColorRequest(w) => ' ' !in w
    case RenameRequest(w) => ' ' !in w
    case Quit => true
    case ChatText(t) => !IsRequest(t, ColorKeyword) && !IsRequest(t, NicknameKeyword) && t != QuitCommand
  }

  /** Typing a command's text is classified as that command. */
  lemma {:induction false} ClassifyCommandText(c: Command)
    requires Expressible(c)
    ensures Classify(CommandText(c)) == c
  {
    match c
    case ColorRequest(w) =>
      assert Lower(ColorKeyword) == ColorKeyword;
      ClassifyRequestAnyCase(ColorKeyword, w);
    case RenameRequest(w) =>
      assert Lower(NicknameKeyword) == NicknameKeyword;
      ClassifyRequestAnyCase(NicknameKeyword, w);
    case Quit =>
      QuitIsNoRequest();
    case ChatText(t) =>
  }

  /** The three outcomes of HandleNameChangeRequest. */
  datatype RenameOutcome = Accepted | RejectedTaken | RejectedTooLong

  /** Accepted when short enough and not taken; a taken name is reported as
      such even when it is also too long. */
  function RenameDecision(name: string, nicknames: seq<string>): (r: RenameOutcome)
    ensures r == Accepted <==> |name| < NicknameLimit && !NameTaken(name, nicknames)
    ensures r == RejectedTaken <==> NameTaken(name, nicknames)
  {
    if |name| < NicknameLimit && !NameTaken(name, nicknames) then Accepted
    else if NameTaken(name, nicknames) then RejectedTaken
    else RejectedTooLong
  }

  /** An accepted rename of a one-word request yields a valid, unused name. */
  lemma {:induction false} AcceptedNameIsValid(name: string, nicknames: seq<string>)
    requires ' ' !in name
    requires RenameDecision(name, nicknames) == Accepted
    ensures ValidNickname(name) && name !in nicknames && |name| < NicknameLimit
  {
  }

  const TakenReply: string := "Please pick a unique and valid name."
  const TooLongReply: string := "Please pick a name under 18 characters."
  const BadColorReply: string := "Not a valid input for a color."
  const OfflineNotice: string := "Server went offline."

  /** The private reply to a refused rename. */
  function RenameReply(outcome: RenameOutcome): string
  {
    if outcome == RejectedTaken then TakenReply else TooLongReply
  }

  function RenameNotice(oldName: string, newName: string): string
  {
    "\"" + oldName + "\" changed nickname to \"" + newName + "\"."
  }

  function ColorNotice(nickname: string, colorName: string): string
  {
    "\"" + nickname + "\" changed color to \"" + colorName + "\"."
  }

  function JoinNotice(nickname: string): string
  {
    "User \"" + nickname + "\" joined the server."
  }

  function DisconnectNotice(nickname: string): string
  {
    nickname + " was disconnected."
  }
}
