/** OnMessageToClientEventArgs: the one line format every chat message and
    every server notice takes on the wire, "<timestamp> <user> says: <message>". */
module ChatMessages {
  import opened Text

  /** The speaker name the server uses for its own notices. */
  const ServerName: string := "Server"
  const SaysWord: string := "says:"
  /** The input that ends a session, on both ends. */
  const QuitCommand: string := "get out"

  /** The line SendClientMessage writes: the timestamp, the speaker, then the body. */
  function ChatLine(ts: string, user: string, message: string): (r: string)
    ensures |r| == |ts| + |user| + |message| + 8
    ensures r[..|ts|] == ts
    ensures r[|ts|..|ts| + 1 + |user|] == " " + user
    ensures r[|ts| + 1 + |user|..|ts| + 8 + |user|] == " says: "
    ensures r[|r| - |message|..] == message
  {
    ts + " " + user + " says: " + message
  }

  /** With a timestamp of two space-free words ("date time") and a space-free
      speaker, splitting a chat line on ' ' gives date, time, the speaker,
      "says:", then the words of the body: token 2 is the speaker. */
  lemma {:induction false} SpeakerTokens(date: string, time: string, user: string, message: string)
    requires ' ' !in date && ' ' !in time && ' ' !in user
    ensures Split(ChatLine(date + " " + time, user, message), ' ')
         == [date, time, user, SaysWord] + Split(message, ' ')
  {
    var s4 := SaysWord + [' '] + message;
    var s3 := user + [' '] + s4;
    var s2 := time + [' '] + s3;
    var s1 := date + [' '] + s2;
    assert ChatLine(date + " " + time, user, message) == s1;
    assert ' ' !in SaysWord;
    SplitAfter(SaysWord, ' ', message);
    SplitAfter(user, ' ', s4);
    SplitAfter(time, ' ', s3);
    SplitAfter(date, ' ', s2);
    var rest := Split(message, ' ');
    assert [date] + ([time] + ([user] + ([SaysWord] + rest))) == [date, time, user, SaysWord] + rest;
  }
}
