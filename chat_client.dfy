/** ChatClient: the client's parsing of the two roster texts and the welcome
    banner, the colour it gives a received line, the bounded message history
    of its listener thread, and the filter its input loop applies before
    sending. */
module Client {
  import opened Text
  import opened ClientManager
  import opened RosterCodec
  import opened ChatMessages

  /** The renderer's dimensions. */
  const ClientWidth: nat := 130
  const ClientHeight: nat := 33
  const TextBoxWidth: nat := ClientWidth / 2 + 20
  const TextBoxHeight: nat := ClientHeight - 4
  /** The history is cut back below this many lines after every message. */
  const HistoryLimit: nat := TextBoxHeight - 1
  /** Received texts this long or longer are dropped. */
  const MaxIncoming: nat := 2500
  /** Typed lines this long or longer are not sent. */
  const MaxOutgoing: nat := 256
  /** The prefix that marks a received text as a roster update. */
  const UpdatingPrefix: string := UpdatingTag + [Separator]
  /** ConsoleColor codes of the welcome banner besides the default grey: black and green. */
  const Black: nat := 0
  const ServerGreen: nat := 10

  /** The row of a '#'-split roster starting at field `base`; None when a
      field is missing or an id or colour is not a number (Int32.Parse throws). */
  function RowAt(fields: seq<string>, base: nat): (r: Option<Entry>)
    ensures r.Some? ==> base + 3 < |fields|
    ensures r.Some? ==> ParseNat(fields[base]) == Some(r.value.id) && ParseNat(fields[base + 3]) == Some(r.value.color)
    ensures r.Some? ==> r.value.endpoint == fields[base + 1] && r.value.nickname == fields[base + 2]
    ensures r.None? <==> base + 3 >= |fields| || ParseNat(fields[base]).None? || ParseNat(fields[base + 3]).None?
  {
    if base + 3 < |fields| && ParseNat(fields[base]).Some? && ParseNat(fields[base + 3]).Some? then
      Some(Entry(ParseNat(fields[base]).value, fields[base + 1], fields[base + 2], ParseNat(fields[base + 3]).value))
    else None
  }

  /** The first n rows from field `base` on, stopping at the first row that
      cannot be read; the flag says whether all n were read. */
  function ParseRows(fields: seq<string>, base: nat, n: nat): (r: (seq<Entry>, bool))
    ensures |r.0| <= n
    ensures r.1 ==> |r.0| == n
    ensures !r.1 ==> RowAt(fields, base + 4 * |r.0|).None?
    ensures forall k :: 0 <= k < |r.0| ==> RowAt(fields, base + 4 * k) == Some(r.0[k])
    decreases n
  {
    if n == 0 then ([], true)
    else
      var before := ParseRows(fields, base, n - 1);
      if !before.1 then before
      else match RowAt(fields, base + 4 * (n - 1))
        case None => (before.0, false)
        case Some(e) => (before.0 + [e], true)
  }

  /** Once a row has failed, asking for more rows changes nothing. */
  lemma {:induction false} ParseRowsStopped(fields: seq<string>, base: nat, i: nat, n: nat)
    requires i <= n
    requires !ParseRows(fields, base, i).1
    ensures ParseRows(fields, base, n) == ParseRows(fields, base, i)
    decreases n - i
  {
    if i < n {
      ParseRowsStopped(fields, base, i, n - 1);
    }
  }

  /** The reading of a roster text: field 1 is the row count, the rows follow. */
  function ParseRoster(message: string): (r: (seq<Entry>, bool))
    ensures r.1 ==> (|Split(message, Separator)| >= 2
                     && ParseNat(Split(message, Separator)[1]) == Some(|r.0|))
  {
    var fields := Split(message, Separator);
    if |fields| < 2 then ([], false)
    else match ParseNat(fields[1])
      case None => ([], false)
      case Some(n) => ParseRows(fields, 2, n)
  }

  /** One row laid out by RosterFields is read back by RowAt. */
  lemma {:induction false} RowOfFields(fields: seq<string>, base: nat, entries: seq<Entry>, k: nat)
    requires base + 4 * |entries| <= |fields|
    requires fields[base..base + 4 * |entries|] == RosterFields(entries)
    requires k < |entries|
    ensures RowAt(fields, base + 4 * k) == Some(entries[k])
  {
    var at := base + 4 * k;
    FieldOfRow(fields, base, entries, k, 0);
    FieldOfRow(fields, base, entries, k, 1);
    FieldOfRow(fields, base, entries, k, 2);
    FieldOfRow(fields, base, entries, k, 3);
    RowAtFields(fields, at, entries[k]);
  }

  /** Field j of row k sits at base + 4k + j. */
  lemma {:induction false} FieldOfRow(fields: seq<string>, base: nat, entries: seq<Entry>, k: nat, j: nat)
    requires base + 4 * |entries| <= |fields|
    requires fields[base..base + 4 * |entries|] == RosterFields(entries)
    requires k < |entries| && j < 4
    ensures base + 4 * k + j < |fields|
    ensures fields[base + 4 * k + j] == EntryFields(entries[k])[j]
  {
    RosterFieldsAt(entries, k, j);
    FieldOfSlice(fields, base, base + 4 * |entries|, 4 * k + j);
  }

  /** A row's four fields, printed as EntryFields prints them, read back. */
  lemma {:induction false} RowAtFields(fields: seq<string>, at: nat, e: Entry)
    requires at + 3 < |fields|
    requires fields[at] == NatToString(e.id) && fields[at + 1] == e.endpoint
    requires fields[at + 2] == e.nickname && fields[at + 3] == NatToString(e.color)
    ensures RowAt(fields, at) == Some(e)
  {
    ParseNatToString(e.id);
    ParseNatToString(e.color);
  }

  lemma {:induction false} FieldOfSlice(fields: seq<string>, lo: nat, hi: nat, i: nat)
    requires lo <= hi <= |fields| && i < hi - lo
    ensures fields[lo..hi][i] == fields[lo + i]
  {
  }

  /** Rows laid out from field `base` as RosterFields lays them out are read
      back exactly. */
  lemma {:induction false} ParseRowsOfFields(fields: seq<string>, base: nat, entries: seq<Entry>, k: nat)
    requires base + 4 * |entries| <= |fields|
    requires fields[base..base + 4 * |entries|] == RosterFields(entries)
    requires k <= |entries|
    ensures ParseRows(fields, base, k) == (entries[..k], true)
    decreases k
  {
    if k > 0 {
      ParseRowsOfFields(fields, base, entries, k - 1);
      var e := entries[k - 1];
      var at := base + 4 * (k - 1);
      RowOfFields(fields, base, entries, k - 1);
      assert RowAt(fields, at) == Some(e);
      assert entries[..k] == entries[..k - 1] + [e];
    }
  }

  /** WriteWelcomeMessage shows fields 2 up to, not including, this one. */
  const BannerEnd: nat := 8

  /** The blank line WriteWelcomeMessage puts after fields 2, 4 and 7. */
  const Blank: string := " "

  /** The history lines WriteWelcomeMessage takes from field i: the field,
      then a blank line after fields 2, 4 and 7. */
  function BannerLine(fields: seq<string>, i: nat): seq<string>
    requires i < |fields|
  {
    if i == 2 || i == 4 || i == 7 then [fields[i], Blank] else [fields[i]]
  }

  /** The history lines WriteWelcomeMessage takes from fields 2 .. n-1. */
  function BannerLines(fields: seq<string>, n: nat): (r: seq<string>)
    requires n <= |fields|
    decreases n
  {
    if n <= 2 then [] else BannerLines(fields, n - 1) + BannerLine(fields, n - 1)
  }

  lemma {:induction false} BannerLinesStep(fields: seq<string>, n: nat)
    requires 2 < n <= |fields|
    ensures BannerLines(fields, n) == BannerLines(fields, n - 1) + BannerLine(fields, n - 1)
  {
  }

  /** All six banner fields give nine lines, three of them blank. */
  lemma {:induction false} BannerLinesComplete(f: seq<string>, n: nat)
    requires n == BannerEnd && |f| >= n
    ensures BannerLines(f, n) == [f[2], Blank, f[3], f[4], Blank, f[5], f[6], f[7], Blank]
  {
    var l2, l3, l4, l5, l6, l7 := BannerLine(f, 2), BannerLine(f, 3), BannerLine(f, 4), BannerLine(f, 5), BannerLine(f, 6), BannerLine(f, 7);
    BannerLinesStep(f, n - 5);
    BannerLinesStep(f, n - 4);
    BannerLinesStep(f, n - 3);
    BannerLinesStep(f, n - 2);
    BannerLinesStep(f, n - 1);
    BannerLinesStep(f, n);
    assert BannerLines(f, n) == l2 + l3 + l4 + l5 + l6 + l7;
    assert l2 + l3 + l4 + l5 + l6 + l7 == [f[2], Blank, f[3], f[4], Blank, f[5], f[6], f[7], Blank];
  }

  /** The colours WriteWelcomeMessage gives the nine banner lines. */
  const BannerColors: seq<nat> := [DefaultColor, Black, ServerGreen, ServerGreen, Black, ServerGreen, ServerGreen, ServerGreen, Black]

  /** AddMessageColor: the colour of a received line is grey for the server's
      lines and otherwise the speaker's colour in the local roster; None when
      the line has fewer than three words or the speaker is not in the roster
      (the index lookups throw). */
  function SpeakerColor(message: string, nicknames: seq<string>, colors: seq<nat>): (r: Option<nat>)
    requires |nicknames| == |colors|
    ensures r.None? <==> (|Split(message, ' ')| < 3
                          || (Split(message, ' ')[2] != ServerName && Split(message, ' ')[2] !in nicknames))
  {
    var words := Split(message, ' ');
    if |words| < 3 then None
    else if words[2] == ServerName then Some(DefaultColor)
    else match IndexOf(nicknames, words[2])
      case None => None
      case Some(i) => Some(colors[i])
  }

  /** On a chat line the colour is the speaker's: grey for the server, the
      colour of the speaker's first roster row otherwise, and none for an
      unknown speaker. */
  lemma {:induction false} SpeakerColorOfChatLine(date: string, time: string, user: string, message: string,
                               nicknames: seq<string>, colors: seq<nat>)
    requires ' ' !in date && ' ' !in time && ' ' !in user
    requires |nicknames| == |colors|
    ensures user == ServerName ==> SpeakerColor(ChatLine(date + " " + time, user, message), nicknames, colors) == Some(DefaultColor)
    ensures user != ServerName && user !in nicknames
        ==> SpeakerColor(ChatLine(date + " " + time, user, message), nicknames, colors).None?
    ensures forall k :: (0 <= k < |nicknames| && nicknames[k] == user && user != ServerName
                         && (forall j :: 0 <= j < k ==> nicknames[j] != user))
                     ==> SpeakerColor(ChatLine(date + " " + time, user, message), nicknames, colors) == Some(colors[k])
  {
    SpeakerTokens(date, time, user, message);
    var words := Split(ChatLine(date + " " + time, user, message), ' ');
    assert words[2] == user;
    if user in nicknames {
      var i := IndexOf(nicknames, user).value;
      assert forall k :: (0 <= k < |nicknames| && nicknames[k] == user && (forall j :: 0 <= j < k ==> nicknames[j] != user))
                     ==> k == i;
    }
  }

  /** The lines a displayable text adds to the history: the text itself when
      it fits the text box, otherwise the renderer's word-wrapped lines. */
  function DisplayLines(message: string, wrapped: seq<string>): (r: seq<string>)
    ensures |message| < TextBoxWidth - 1 ==> r == [message]
    ensures |message| >= TextBoxWidth - 1 ==> r == wrapped
  {
    if |message| < TextBoxWidth - 1 then [message] else wrapped
  }

  function Repeat(c: nat, n: nat): (r: seq<nat>)
    ensures |r| == n
    ensures forall k :: 0 <= k < n ==> r[k] == c
  {
    seq(n, _ => c)
  }

  /** How many oldest lines the trim removes: all but the newest
      HistoryLimit - 1 once the history has reached HistoryLimit. */
  function TrimCount(n: nat): (r: nat)
    ensures r <= n
    ensures n - r < HistoryLimit
    ensures n < HistoryLimit ==> r == 0
    ensures n >= HistoryLimit ==> n - r == HistoryLimit - 1
  {
    if n >= HistoryLimit then n - (HistoryLimit - 1) else 0
  }

  /** The parsed welcome: field 1 is the client's nickname, fields 2 .. 7
      give the banner, field 9 the number of rows that start at field 10. */
  function WelcomeRows(fields: seq<string>): (r: (seq<Entry>, bool))
    ensures r.1 ==> |fields| >= 10 && ParseNat(fields[9]) == Some(|r.0|)
  {
    if |fields| < 10 then ([], false)
    else match ParseNat(fields[9])
      case None => ([], false)
      case Some(n) => ParseRows(fields, 10, n)
  }

  /** One line typed at the prompt, and whether writing it to the stream
      throws (the connection broke). */
  datatype Typed = Typed(line: string, sendFails: bool)

  /** The line is written: short enough, and the write succeeds. */
  predicate Delivered(t: Typed)
  {
    |t.line| < MaxOutgoing && !t.sendFails
  }

  /** A "get out" that reached the server ends the session. A failed one
      throws instead; the catch restarts the outer loop, which goes on
      reading lines. */
  predicate Quits(t: Typed)
  {
    t.line == QuitCommand && !t.sendFails
  }

  /** The typed lines CommunicateToServer sends: up to and including the
      first "get out" that is written, those shorter than MaxOutgoing
      characters whose write succeeds. */
  function Outgoing(inputs: seq<Typed>): seq<string>
    decreases |inputs|
  {
    if inputs == [] then []
    else
      (if Delivered(inputs[0]) then [inputs[0].line] else [])
        + (if Quits(inputs[0]) then [] else Outgoing(inputs[1..]))
  }

  /** Nothing too long is sent, and only lines typed and written. */
  lemma {:induction false} OutgoingShort(inputs: seq<Typed>, m: string)
    requires m in Outgoing(inputs)
    ensures |m| < MaxOutgoing
    ensures exists k :: 0 <= k < |inputs| && inputs[k].line == m && Delivered(inputs[k])
    decreases |inputs|
  {
    if Delivered(inputs[0]) && inputs[0].line == m {
      assert inputs[0].line == m;
    } else {
      OutgoingShort(inputs[1..], m);
      var k :| 0 <= k < |inputs[1..]| && inputs[1..][k].line == m && Delivered(inputs[1..][k]);
      assert inputs[k + 1] == inputs[1..][k];
    }
  }

  /** Until a "get out" reaches the server, exactly the short lines whose
      write succeeds are sent; a failed write, even of "get out", only loses
      that line. */
  lemma {:induction false} OutgoingUntilQuit(inputs: seq<Typed>, m: string)
    requires forall k :: 0 <= k < |inputs| ==> !Quits(inputs[k])
    ensures m in Outgoing(inputs) <==> exists k :: 0 <= k < |inputs| && inputs[k].line == m && Delivered(inputs[k])
    decreases |inputs|
  {
    if inputs != [] {
      OutgoingUntilQuit(inputs[1..], m);
      if exists k :: 0 <= k < |inputs| && inputs[k].line == m && Delivered(inputs[k]) {
        var k :| 0 <= k < |inputs| && inputs[k].line == m && Delivered(inputs[k]);
        if k > 0 {
          assert inputs[1..][k - 1] == inputs[k];
        }
      }
      if exists k :: 0 <= k < |inputs[1..]| && inputs[1..][k].line == m && Delivered(inputs[1..][k]) {
        var k :| 0 <= k < |inputs[1..]| && inputs[1..][k].line == m && Delivered(inputs[1..][k]);
        assert inputs[k + 1] == inputs[1..][k];
      }
    }
  }

  /** The first "get out" that reaches the server is sent last: nothing
      typed after it goes out. */
  lemma {:induction false} OutgoingStopsAtQuit(inputs: seq<Typed>, j: nat)
    requires j < |inputs| && Quits(inputs[j])
    requires forall k :: 0 <= k < j ==> !Quits(inputs[k])
    ensures Outgoing(inputs) == Outgoing(inputs[..j]) + [QuitCommand]
    decreases j
  {
    if j == 0 {
      assert Outgoing(inputs[..0]) == [];
    } else {
      assert inputs[0] == inputs[..j][0];
      assert inputs[1..][..j - 1] == inputs[..j][1..];
      assert forall k :: 0 <= k < j - 1 ==> inputs[1..][k] == inputs[k + 1];
      OutgoingStopsAtQuit(inputs[1..], j - 1);
    }
  }

  /** Before a "get out" reaches the server, one more typed line adds itself
      when it is short enough and its write succeeds. */
  lemma {:induction false} OutgoingSnoc(lines: seq<Typed>, t: Typed)
    requires forall k :: 0 <= k < |lines| ==> !Quits(lines[k])
    ensures Outgoing(lines + [t]) == Outgoing(lines) + (if Delivered(t) then [t.line] else [])
    decreases |lines|
  {
    if lines == [] {
      assert lines + [t] == [t];
    } else {
      var rest := lines[1..];
      assert (lines + [t])[1..] == rest + [t];
      assert !Quits(lines[0]);
      forall k | 0 <= k < |rest| ensures !Quits(rest[k]) {
        assert rest[k] == lines[k + 1];
      }
      OutgoingSnoc(rest, t);
    }
  }

  /** The inner loop of CommunicateToServer over the lines typed so far,
      with the outer loop's restart after a failed write folded in: returns
      what is sent and whether a "get out" that reached the server ended
      the session. */
  method SendInputs(inputs: seq<Typed>) returns (sent: seq<string>, quit: bool)
    ensures sent == Outgoing(inputs)
    ensures quit <==> exists k :: 0 <= k < |inputs| && Quits(inputs[k])
  {
    sent := [];
    var i := 0;
    while i < |inputs|
      invariant 0 <= i <= |inputs|
      invariant forall k :: 0 <= k < i ==> !Quits(inputs[k])
      invariant sent == Outgoing(inputs[..i])
    {
      var typed := inputs[i];
      if |typed.line| < MaxOutgoing && !typed.sendFails {
        sent := sent + [typed.line];
        if typed.line == QuitCommand {
          OutgoingStopsAtQuit(inputs, i);
          return sent, true;
        }
      }
      OutgoingSnoc(inputs[..i], typed);
      assert inputs[..i + 1] == inputs[..i] + [typed];
      i := i + 1;
    }
    assert inputs[..i] == inputs;
    return sent, false;
  }

  class ChatClient {
    const manager: ChatClientManager
    var nickName: string
    var receivedMessages: seq<string>
    var receivedMessagesColors: seq<nat>
    /** False once an exception has escaped the listener thread, which ends
        the process. */
    var running: bool

    ghost predicate Valid()
      reads this, manager
    {
      manager.Valid()
    }

    /** Every history line has its colour. */
    ghost predicate Aligned()
      reads this
    {
      |receivedMessages| == |receivedMessagesColors|
    }

    constructor()
      ensures Valid() && Aligned() && running && fresh(manager)
      ensures manager.Entries() == [] && receivedMessages == [] && receivedMessagesColors == []
    {
      manager := new ChatClientManager();
      nickName := "";
      receivedMessages := [];
      receivedMessagesColors := [];
      running := true;
    }

    /** The rows the loops of UpdateClientList and WriteWelcomeMessage add
        to the manager's four lists, one row at a time. */
    method AppendRows(fields: seq<string>, base: nat, count: nat) returns (ok: bool)
      requires Valid()
      modifies manager
      ensures Valid()
      ensures manager.Entries() == old(manager.Entries()) + ParseRows(fields, base, count).0
      ensures ok == ParseRows(fields, base, count).1
    {
      var i := 0;
      while i < count
        invariant 0 <= i <= count
        invariant Valid()
        invariant ParseRows(fields, base, i).1
        invariant manager.Entries() == old(manager.Entries()) + ParseRows(fields, base, i).0
      {
        var row := RowAt(fields, base + 4 * i);
        if row.None? {
          ParseRowsStopped(fields, base, i + 1, count);
          return false;
        }
        AddRow(row.value);
        i := i + 1;
      }
      return true;
    }

    /** One row added to the ends of the manager's four lists. */
    method AddRow(e: Entry)
      requires Valid()
      modifies manager
      ensures Valid()
      ensures manager.Entries() == old(manager.Entries()) + [e]
    {
      manager.ids := manager.ids + [e.id];
      manager.endpoints := manager.endpoints + [e.endpoint];
      manager.nicknames := manager.nicknames + [e.nickname];
      manager.colors := manager.colors + [e.color];
    }

    /** UpdateClientList: the local roster becomes the rows of the text. */
    method UpdateClientList(message: string) returns (ok: bool)
      requires Valid()
      modifies manager
      ensures Valid()
      ensures manager.Entries() == ParseRoster(message).0
      ensures ok == ParseRoster(message).1
    {
      manager.ClearLists();
      var fields := Split(message, Separator);
      if |fields| < 2 {
        return false;
      }
      var count := ParseNat(fields[1]);
      if count.None? {
        return false;
      }
      ok := AppendRows(fields, 2, count.value);
    }

    /** WriteWelcomeMessage: field 1 becomes the nickname, fields 2 .. 7 the
        banner lines with their colours, and the rows from field 10 on are
        added to the roster. A missing field or a bad number stops it where
        it is; the caller catches that and carries on. */
    method WriteWelcomeMessage(message: string) returns (ok: bool)
      requires Valid()
      modifies this`nickName, this`receivedMessages, this`receivedMessagesColors, manager
      ensures Valid()
      ensures var fields := Split(message, Separator);
        if |fields| < 2 then
          nickName == old(nickName) && receivedMessages == old(receivedMessages)
          && receivedMessagesColors == old(receivedMessagesColors)
          && manager.Entries() == old(manager.Entries()) && !ok
        else if |fields| < BannerEnd then
          nickName == fields[1] && receivedMessages == old(receivedMessages) + BannerLines(fields, |fields|)
          && receivedMessagesColors == old(receivedMessagesColors)
          && manager.Entries() == old(manager.Entries()) && !ok
        else
          nickName == fields[1] && receivedMessages == old(receivedMessages) + BannerLines(fields, BannerEnd)
          && receivedMessagesColors == old(receivedMessagesColors) + BannerColors
          && manager.Entries() == old(manager.Entries()) + WelcomeRows(fields).0
          && ok == WelcomeRows(fields).1
    {
      var fields := Split(message, Separator);
      if |fields| < 2 {
        return false;
      }
      nickName := fields[1];
      var complete := AddBannerLines(fields);
      if !complete {
        return false;
      }
      receivedMessagesColors := receivedMessagesColors + BannerColors;
      if |fields| < 10 {
        return false;
      }
      var count := ParseNat(fields[9]);
      if count.None? {
        return false;
      }
      ok := AppendRows(fields, 10, count.value);
    }

    /** The display loop of WriteWelcomeMessage over fields 2 .. 7; a
        missing field throws and ends it. */
    method AddBannerLines(fields: seq<string>) returns (complete: bool)
      requires |fields| >= 2
      modifies this`receivedMessages
      ensures complete <==> |fields| >= BannerEnd
      ensures complete ==> receivedMessages == old(receivedMessages) + BannerLines(fields, BannerEnd)
      ensures !complete ==> receivedMessages == old(receivedMessages) + BannerLines(fields, |fields|)
    {
      for i := 2 to BannerEnd
        invariant i <= |fields|
        invariant receivedMessages == old(receivedMessages) + BannerLines(fields, i)
      {
        if i >= |fields| {
          return false;
        }
        receivedMessages := receivedMessages + [fields[i]];
        if i == 2 || i == 4 || i == 7 {
          receivedMessages := receivedMessages + [Blank];
        }
      }
      return true;
    }

    /** The trim loop of ReadMessagesFromServer: the oldest line and the
        oldest colour go together until fewer than HistoryLimit lines are
        left. When the colours run out first, RemoveAt throws and the
        process ends. */
    method TrimHistory()
      requires running
      modifies this`receivedMessages, this`receivedMessagesColors, this`running
      ensures var k := TrimCount(|old(receivedMessages)|);
        if k <= |old(receivedMessagesColors)| then
          running && receivedMessages == old(receivedMessages)[k..]
          && receivedMessagesColors == old(receivedMessagesColors)[k..]
        else
          !running && receivedMessages == old(receivedMessages)[|old(receivedMessagesColors)| + 1..]
          && receivedMessagesColors == []
    {
      ghost var removed := 0;
      while |receivedMessages| >= HistoryLimit
        invariant running
        invariant removed <= |old(receivedMessages)| && removed <= |old(receivedMessagesColors)|
        invariant receivedMessages == old(receivedMessages)[removed..]
        invariant receivedMessagesColors == old(receivedMessagesColors)[removed..]
        invariant removed <= TrimCount(|old(receivedMessages)|)
        decreases |receivedMessages|
      {
        receivedMessages := RemoveAt(receivedMessages, 0);
        if receivedMessagesColors == [] {
          running := false;
          return;
        }
        receivedMessagesColors := RemoveAt(receivedMessagesColors, 0);
        removed := removed + 1;
      }
    }

    /** One pass of the listener loop over a received text. A text that
        starts with "UpdatingClientList:#" replaces the roster; an unreadable
        one throws and ends the process. Any other non-empty text shorter
        than MaxIncoming is added to the history with its speaker's colour
        while the history has room, an unknown speaker ending the process,
        and then the history is trimmed. `wrapped` is the renderer's
        word-wrapping of a text too wide for the text box. */
    method ReceiveMessage(message: string, wrapped: seq<string>)
      requires Valid() && running
      modifies this`receivedMessages, this`receivedMessagesColors, this`running, manager
      ensures Valid()
      ensures StartsWith(message, UpdatingPrefix) ==>
        manager.Entries() == ParseRoster(message).0 && running == ParseRoster(message).1
        && receivedMessages == old(receivedMessages) && receivedMessagesColors == old(receivedMessagesColors)
      ensures !StartsWith(message, UpdatingPrefix) ==> manager.Entries() == old(manager.Entries())
      ensures !StartsWith(message, UpdatingPrefix) && !(0 < |message| < MaxIncoming) ==>
        running && receivedMessages == old(receivedMessages) && receivedMessagesColors == old(receivedMessagesColors)
      ensures (!StartsWith(message, UpdatingPrefix) && 0 < |message| < MaxIncoming
               && |old(receivedMessages)| < HistoryLimit
               && SpeakerColor(message, old(manager.nicknames), old(manager.colors)).None?) ==>
        !running && receivedMessages == old(receivedMessages) && receivedMessagesColors == old(receivedMessagesColors)
      ensures (!StartsWith(message, UpdatingPrefix) && 0 < |message| < MaxIncoming
               && |old(receivedMessages)| < HistoryLimit && old(Aligned())
               && SpeakerColor(message, old(manager.nicknames), old(manager.colors)).Some?) ==>
        var lines := DisplayLines(message, wrapped);
        var all := old(receivedMessages) + lines;
        var allColors := old(receivedMessagesColors)
          + Repeat(SpeakerColor(message, old(manager.nicknames), old(manager.colors)).value, |lines|);
        running && Aligned() && receivedMessages == all[TrimCount(|all|)..]
        && receivedMessagesColors == allColors[TrimCount(|all|)..]
      ensures (!StartsWith(message, UpdatingPrefix) && 0 < |message| < MaxIncoming
               && |old(receivedMessages)| >= HistoryLimit && old(Aligned())) ==>
        var k := TrimCount(|old(receivedMessages)|);
        running && Aligned() && receivedMessages == old(receivedMessages)[k..]
        && receivedMessagesColors == old(receivedMessagesColors)[k..]
    {
      if StartsWith(message, UpdatingPrefix) {
        var ok := UpdateClientList(message);
        if !ok {
          running := false;
        }
        return;
      }
      if 0 < |message| < MaxIncoming {
        if |receivedMessages| < HistoryLimit {
          var color := SpeakerColor(message, manager.nicknames, manager.colors);
          if color.None? {
            running := false;
            return;
          }
          var lines := DisplayLines(message, wrapped);
          receivedMessages := receivedMessages + lines;
          receivedMessagesColors := receivedMessagesColors + Repeat(color.value, |lines|);
        }
        TrimHistory();
      }
    }
  }
}
