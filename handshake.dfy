/** What one end writes and the other reads: the roster update read back by
    the client, the welcome burst the newest client reads in one piece, and
    the chat line the client colours and keeps. */
module Handshake {
  import opened Text
  import opened ClientManager
  import opened RosterCodec
  import opened ChatMessages
  import opened ConnectedEvent
  import opened Client
  import Server

  /** A roster update from CreateClientList is recognised by the client's
      listener and read back into exactly the server's rows. */
  lemma {:induction false} RosterRoundTrip(entries: seq<Entry>)
    requires RosterWellFormed(entries)
    ensures StartsWith(RosterMessage(UpdatingTag, entries), UpdatingPrefix)
    ensures ParseRoster(RosterMessage(UpdatingTag, entries)) == (entries, true)
  {
    var n := |entries|;
    var rest := [NatToString(n)] + RosterFields(entries);
    assert '#' !in UpdatingTag;
    RosterMessageSplit(UpdatingTag, entries);
    var fields := Split(RosterMessage(UpdatingTag, entries), Separator);
    assert fields == [UpdatingTag] + rest + [""];
    ParseNatToString(n);
    assert fields[2..2 + 4 * n] == RosterFields(entries);
    ParseRowsOfFields(fields, 2, entries, n);
    assert entries[..n] == entries;
    TerminatedCons(UpdatingTag, rest, Separator);
    assert RosterHeader(UpdatingTag, entries) == [UpdatingTag] + rest;
  }

  /** The three texts the newest client's OnClientConnected handler writes,
      which the client's ReadWelcomeMessage takes in with one read. */
  function WelcomeBurst(args: ConnectedArgs, ts: string): string
  {
    NickNameMessage(args) + WelcomeText(ts, args.nickname) + OnlineClientsMessage(args)
  }

  /** The fields of the burst: the banner's last segment runs into the
      roster's tag, so the row count is field 9 and the rows start at 10. */
  function WelcomeWire(args: ConnectedArgs, ts: string): (r: seq<string>)
    ensures |r| == 10 + 4 * |args.roster|
  {
    [WelcomeTag, args.nickname] + BannerFields(ts, args.nickname)
      + [QuitHelp + OnlineTag, NatToString(|args.roster|)] + RosterFields(args.roster)
  }

  lemma {:induction false} WelcomeWireSeparatorFree(args: ConnectedArgs, ts: string)
    requires Separator !in ts && Separator !in args.nickname
    requires RosterWellFormed(args.roster)
    ensures SeparatorFree(WelcomeWire(args, ts), Separator)
  {
    BannerFieldsSeparatorFree(ts, args.nickname);
    FixedLinesSeparatorFree();
    assert '#' !in OnlineTag && '#' !in WelcomeTag;
    assert Separator !in QuitHelp + OnlineTag;
    RosterFieldsSeparatorFree(args.roster);
    DigitsHaveNoSeparator(NatToString(|args.roster|), Separator);
  }

  /** The roster text appended to the banner's last segment. */
  lemma {:induction false} OnlineTail(args: ConnectedArgs)
    ensures QuitHelp + OnlineClientsMessage(args)
         == Terminated([QuitHelp + OnlineTag, NatToString(|args.roster|)] + RosterFields(args.roster), Separator)
  {
    var rest := [NatToString(|args.roster|)] + RosterFields(args.roster);
    assert RosterHeader(OnlineTag, args.roster) == [OnlineTag] + rest;
    TerminatedCons(OnlineTag, rest, Separator);
    TerminatedCons(QuitHelp + OnlineTag, rest, Separator);
    assert [QuitHelp + OnlineTag] + rest == [QuitHelp + OnlineTag, NatToString(|args.roster|)] + RosterFields(args.roster);
  }

  /** The burst is the wire fields, each ended by '#'. */
  lemma {:induction false} WelcomeBurstTerminated(args: ConnectedArgs, ts: string)
    ensures WelcomeBurst(args, ts) == Terminated(WelcomeWire(args, ts), Separator)
  {
    var head := [WelcomeTag, args.nickname];
    var banner := BannerFields(ts, args.nickname);
    var tail := [QuitHelp + OnlineTag, NatToString(|args.roster|)] + RosterFields(args.roster);
    var a := NickNameMessage(args);
    var b := Terminated(banner, Separator);
    var online := OnlineClientsMessage(args);
    var c := QuitHelp + online;
    OnlineTail(args);
    assert c == Terminated(tail, Separator);
    assert WelcomeText(ts, args.nickname) == b + QuitHelp;
    assert WelcomeBurst(args, ts) == a + (b + QuitHelp) + online;
    assert a + (b + QuitHelp) + online == (a + b) + c;
    TerminatedAppend(head, banner, Separator);
    assert a + b == Terminated(head + banner, Separator);
    TerminatedAppend(head + banner, tail, Separator);
    assert WelcomeWire(args, ts) == head + banner + tail;
  }

  lemma {:induction false} WelcomeBurstSplit(args: ConnectedArgs, ts: string)
    requires Separator !in ts && Separator !in args.nickname
    requires RosterWellFormed(args.roster)
    ensures Split(WelcomeBurst(args, ts), Separator) == WelcomeWire(args, ts) + [""]
  {
    WelcomeBurstTerminated(args, ts);
    WelcomeWireSeparatorFree(args, ts);
    SplitTerminatedAll(WelcomeWire(args, ts), Separator);
  }

  /** Every roster update a running server broadcasts is read back by each
      client as exactly the server's online rows. */
  lemma {:induction false} ServerRosterRoundTrip(server: Server.ChatServer)
    requires server.Valid()
    ensures ParseRoster(RosterMessage(UpdatingTag, server.manager.Entries())) == (server.manager.Entries(), true)
  {
    server.SentRosterWellFormed();
    RosterRoundTrip(server.manager.Entries());
  }

  /** The newest client reads its welcome burst as the server meant it: the
      captured nickname and every online row. */
  lemma {:induction false} ServerWelcomeRoundTrip(server: Server.ChatServer, ts: string)
    requires server.Valid() && server.manager.ids != [] && Separator !in ts
    ensures var args := Capture(server.manager.Entries());
            var fields := Split(WelcomeBurst(args, ts), Separator);
            |fields| >= 10 && fields[1] == args.nickname
            && WelcomeRows(fields) == (server.manager.Entries(), true)
  {
    var rows := server.manager.Entries();
    server.SentRosterWellFormed();
    assert EntryWellFormed(rows[|rows| - 1]);
    WelcomeRoundTrip(Capture(rows), ts);
  }

  /** The client reads the burst as the server meant it: its own nickname,
      the banner with its blank lines, and the full roster of online clients. */
  lemma {:induction false} WelcomeRoundTrip(args: ConnectedArgs, ts: string)
    requires Separator !in ts && Separator !in args.nickname
    requires RosterWellFormed(args.roster)
    ensures var fields := Split(WelcomeBurst(args, ts), Separator);
      |fields| >= 10 && fields[1] == args.nickname
      && BannerLines(fields, BannerEnd)
         == [BannerHead(ts), Blank, Greeting, NicknameLine(args.nickname), Blank, ColorLine, NicknameHelp, ColorHelp, Blank]
      && WelcomeRows(fields) == (args.roster, true)
  {
    WelcomeBurstSplit(args, ts);
    var fields := Split(WelcomeBurst(args, ts), Separator);
    var n := |args.roster|;
    assert fields[1] == args.nickname && fields[9] == NatToString(n);
    BannerLinesComplete(fields, BannerEnd);
    ParseNatToString(n);
    assert fields[10..10 + 4 * n] == RosterFields(args.roster);
    ParseRowsOfFields(fields, 10, args.roster, n);
    assert args.roster[..n] == args.roster;
  }

  /** With the header as written, field 1 of anything that follows it is
      the captured position, not a nickname. */
  lemma {:induction false} AsWrittenNicknameField(args: ConnectedArgs, rest: string)
    ensures var fields := Split(NickNameMessageAsWritten(args) + rest, Separator);
      |fields| >= 2 && fields[1] == NatToString(args.id)
  {
    assert '#' !in WelcomeTag;
    DigitsHaveNoSeparator(NatToString(args.id), Separator);
    SplitTerminated([WelcomeTag, NatToString(args.id)], Separator, rest);
  }

  /** Clients 0 and 1 joined, client 0 left, then client 2 joined: the
      newest client, "2", sits at position 1, so the header as written hands
      it the nickname "1" of the other online client. */
  lemma {:induction false} NickNameHeaderAsWrittenMismatch()
    ensures var roster := [Entry(1, "ep1", "1", DefaultColor), Entry(2, "ep2", "2", DefaultColor)];
      var args := Capture(roster);
      var fields := Split(NickNameMessageAsWritten(args) + WelcomeText("t", args.nickname) + OnlineClientsMessage(args), Separator);
      args.nickname == "2" && |fields| >= 2 && fields[1] == "1" && fields[1] == roster[0].nickname
  {
    var roster := [Entry(1, "ep1", "1", DefaultColor), Entry(2, "ep2", "2", DefaultColor)];
    var args := Capture(roster);
    AsWrittenNicknameField(args, WelcomeText("t", args.nickname) + OnlineClientsMessage(args));
    assert NatToString(1) == [DigitChar(1)];
    assert (NickNameMessageAsWritten(args) + WelcomeText("t", args.nickname)) + OnlineClientsMessage(args)
        == NickNameMessageAsWritten(args) + (WelcomeText("t", args.nickname) + OnlineClientsMessage(args));
  }

  /** A chat line whose timestamp starts with a digit is never taken for a
      roster update and is never empty, so the listener shows it whenever it
      is shorter than MaxIncoming. */
  lemma {:induction false} ChatLineIsDisplayed(ts: string, user: string, message: string)
    requires ts != [] && IsDigit(ts[0])
    ensures !StartsWith(ChatLine(ts, user, message), UpdatingPrefix)
    ensures |ChatLine(ts, user, message)| > 0
  {
    var line := ChatLine(ts, user, message);
    assert line[0] == ts[0];
    assert UpdatingPrefix[0] == 'U';
  }
}
