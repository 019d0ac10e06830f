/** OnClientConnectedEventArgs: what the server captures about the newest
    client when it fires OnClientConnected, and the three messages the newest
    client's handler writes to it: the nickname header, the welcome banner and
    the roster of online clients. */
module ConnectedEvent {
  import opened Text
  import opened ClientManager
  import opened RosterCodec
  import opened ChatMessages

  const WelcomeTag: string := "ServerSendingWelcomeMessage:"

  /** The event arguments: the position of the last row taken as the id, that
      row's nickname, and the roster the handler later serialises. */
  datatype ConnectedArgs = ConnectedArgs(id: nat, nickname: string, roster: seq<Entry>)

  /** The constructor reads ClientsIDs.Count - 1 and the nickname at that
      position; ElementAt throws on an empty manager. */
  function Capture(roster: seq<Entry>): (r: ConnectedArgs)
    requires roster != []
    ensures r.id == |roster| - 1
    ensures r.nickname == roster[|roster| - 1].nickname
    ensures r.roster == roster
  {
    ConnectedArgs(|roster| - 1, roster[|roster| - 1].nickname, roster)
  }

  /** SendNickName as written: the header carries the captured position. */
  function NickNameMessageAsWritten(args: ConnectedArgs): (r: string)
    ensures r == Terminated([WelcomeTag, NatToString(args.id)], Separator)
  {
    TerminatedCons(NatToString(args.id), [], Separator);
    TerminatedCons(WelcomeTag, [NatToString(args.id)], Separator);
    assert [WelcomeTag] + [NatToString(args.id)] == [WelcomeTag, NatToString(args.id)];
    WelcomeTag + "#" + NatToString(args.id) + "#"
  }

  /** SendNickName as intended: the client stores field 1 of this header as
      its own nickname, so the header carries the captured nickname. */
  function NickNameMessage(args: ConnectedArgs): (r: string)
    ensures r == Terminated([WelcomeTag, args.nickname], Separator)
  {
    TerminatedCons(args.nickname, [], Separator);
    TerminatedCons(WelcomeTag, [args.nickname], Separator);
    assert [WelcomeTag] + [args.nickname] == [WelcomeTag, args.nickname];
    WelcomeTag + "#" + args.nickname + "#"
  }

  /** The fixed lines of the welcome banner. */
  const Greeting: string := "Welcome to the " + "ChatServer!"
  const ColorLine: string := "Your current " + "color is " + "\"grey\""
  const NicknameHelp: string := "Type \"nickname " + "YOUR_NEW_" + "NICKNAME\" to " + "change your " + "nickname"
  const ColorHelp: string := "Type \"color " + "YOUR_NEW_" + "COLOR\" to " + "change your " + "color."
  const QuitHelp: string := "Type \"get out\"" + " to exit " + "this chat " + "application."

  function BannerHead(ts: string): string
  {
    ts + " " + ServerName + " " + SaysWord
  }

  function NicknameLine(nickname: string): string
  {
    "Your current " + "nickname is \"" + nickname + "\""
  }

  /** The banner's first six segments; each is followed by '#'. */
  function BannerFields(ts: string, nickname: string): (r: seq<string>)
    ensures |r| == 6
  {
    [BannerHead(ts), Greeting, NicknameLine(nickname), ColorLine, NicknameHelp, ColorHelp]
  }

  /** SendWelcomeMessage: seven segments joined by '#', with no '#' after the last. */
  function WelcomeText(ts: string, nickname: string): string
  {
    Terminated(BannerFields(ts, nickname), Separator) + QuitHelp
  }

  /** SendOnlineClients: the roster under its own tag, built by the same
      accumulation loop as CreateClientList. */
  function OnlineClientsMessage(args: ConnectedArgs): string
  {
    RosterMessage(OnlineTag, args.roster)
  }

  lemma {:induction false} FixedLinesSeparatorFree()
    ensures Separator !in Greeting && Separator !in ColorLine && Separator !in QuitHelp
    ensures Separator !in NicknameHelp && Separator !in ColorHelp
    ensures Separator !in ServerName && Separator !in SaysWord
  {
    HelpLinesSeparatorFree();
    assert '#' !in "Type \"get out\"" && '#' !in " to exit " && '#' !in "this chat " && '#' !in "application.";
  }

  lemma {:induction false} HelpLinesSeparatorFree()
    ensures Separator !in NicknameHelp && Separator !in ColorHelp
  {
    assert '#' !in "Type \"nickname " && '#' !in "YOUR_NEW_" && '#' !in "NICKNAME\" to ";
    assert '#' !in "change your " && '#' !in "nickname" && '#' !in "color.";
    assert '#' !in "Type \"color " && '#' !in "COLOR\" to ";
  }

  /** Only the timestamp and the nickname are free text in the banner. */
  lemma {:induction false} BannerFieldsSeparatorFree(ts: string, nickname: string)
    requires Separator !in ts && Separator !in nickname
    ensures SeparatorFree(BannerFields(ts, nickname), Separator)
  {
    FixedLinesSeparatorFree();
    assert '#' !in "Your current " && '#' !in "nickname is \"" && '#' !in "\"";
  }

  /** The banner splits into its seven segments; the third names the nickname. */
  lemma {:induction false} WelcomeTextSplit(ts: string, nickname: string)
    requires Separator !in ts && Separator !in nickname
    ensures Split(WelcomeText(ts, nickname), Separator) == BannerFields(ts, nickname) + [QuitHelp]
  {
    BannerFieldsSeparatorFree(ts, nickname);
    FixedLinesSeparatorFree();
    SplitTerminated(BannerFields(ts, nickname), Separator, QuitHelp);
    SplitSingle(QuitHelp, Separator);
  }
}
