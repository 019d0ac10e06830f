/** The roster text both ends exchange: a tag, the number of rows, then per
    row its id, endpoint, nickname and colour code, every field ended by '#'.
    ChatServer.CreateClientList and CloseClientConnection send it under the tag
    "UpdatingClientList:", OnClientConnectedEventArgs.SendOnlineClients under
    "ServerSendingOnlineClients:". */
module RosterCodec {
  import opened Text
  import opened ClientManager

  const Separator: char := '#'
  const UpdatingTag: string := "UpdatingClientList:"
  const OnlineTag: string := "ServerSendingOnlineClients:"

  /** The four fields of one row, in wire order. */
  function EntryFields(e: Entry): seq<string>
  {
    [NatToString(e.id), e.endpoint, e.nickname, NatToString(e.color)]
  }

  /** The fields of all rows in registry order, four per row. */
  function RosterFields(entries: seq<Entry>): (r: seq<string>)
    ensures |r| == 4 * |entries|
  {
    if entries == [] then []
    else RosterFields(entries[..|entries| - 1]) + EntryFields(entries[|entries| - 1])
  }

  /** The tag, the row count, then the rows' fields. */
  function RosterHeader(tag: string, entries: seq<Entry>): seq<string>
  {
    [tag, NatToString(|entries|)] + RosterFields(entries)
  }

  function RosterMessage(tag: string, entries: seq<Entry>): string
  {
    Terminated(RosterHeader(tag, entries), Separator)
  }

  /** A row's free-text fields never hold the separator. */
  predicate EntryWellFormed(e: Entry)
  {
    Separator !in e.endpoint && Separator !in e.nickname
  }

  predicate RosterWellFormed(entries: seq<Entry>)
  {
    forall i :: 0 <= i < |entries| ==> EntryWellFormed(entries[i])
  }

  /** Field 4k+j of the roster is field j of row k. */
  lemma {:induction false} RosterFieldsAt(entries: seq<Entry>, k: nat, j: nat)
    requires k < |entries| && j < 4
    ensures RosterFields(entries)[4 * k + j] == EntryFields(entries[k])[j]
    decreases |entries|
  {
    var n := |entries|;
    var front := entries[..n - 1];
    assert RosterFields(entries) == RosterFields(front) + EntryFields(entries[n - 1]);
    if k < n - 1 {
      RosterFieldsAt(front, k, j);
    }
  }

  lemma {:induction false} RosterFieldsSeparatorFree(entries: seq<Entry>)
    requires RosterWellFormed(entries)
    ensures SeparatorFree(RosterFields(entries), Separator)
  {
    forall i | 0 <= i < |RosterFields(entries)|
      ensures Separator !in RosterFields(entries)[i]
    {
      RosterFieldsAt(entries, i / 4, i % 4);
      DigitsHaveNoSeparator(NatToString(entries[i / 4].id), Separator);
      DigitsHaveNoSeparator(NatToString(entries[i / 4].color), Separator);
    }
  }

  lemma {:induction false} HeaderSeparatorFree(tag: string, entries: seq<Entry>)
    requires Separator !in tag
    requires RosterWellFormed(entries)
    ensures SeparatorFree(RosterHeader(tag, entries), Separator)
  {
    var rf := RosterFields(entries);
    var fields := [tag, NatToString(|entries|)] + rf;
    RosterFieldsSeparatorFree(entries);
    DigitsHaveNoSeparator(NatToString(|entries|), Separator);
    forall k | 0 <= k < |fields| ensures Separator !in fields[k] {
      if k >= 2 {
        assert fields[k] == rf[k - 2];
      }
    }
  }

  /** Splitting a roster message on '#' gives the tag, the count, the four
      fields of every row in order, and one empty piece after the final '#'. */
  lemma {:induction false} RosterMessageSplit(tag: string, entries: seq<Entry>)
    requires Separator !in tag
    requires RosterWellFormed(entries)
    ensures Split(RosterMessage(tag, entries), Separator) == RosterHeader(tag, entries) + [""]
  {
    HeaderSeparatorFree(tag, entries);
    SplitTerminatedAll(RosterHeader(tag, entries), Separator);
  }

  /** The text one row adds: "id#endpoint#nickname#colour#". */
  lemma {:induction false} EntryText(e: Entry)
    ensures Terminated(EntryFields(e), Separator)
         == NatToString(e.id) + "#" + e.endpoint + "#" + e.nickname + "#" + NatToString(e.color) + "#"
  {
    var a, b, c, d := NatToString(e.id), e.endpoint, e.nickname, NatToString(e.color);
    TerminatedCons(d, [], Separator);
    TerminatedCons(c, [d], Separator);
    TerminatedCons(b, [c, d], Separator);
    TerminatedCons(a, [b, c, d], Separator);
    assert [a] + [b, c, d] == [a, b, c, d] && [b] + [c, d] == [b, c, d] && [c] + [d] == [c, d];
  }

  /** One more row appends its "id#endpoint#nickname#colour#" group. */
  lemma {:induction false} RosterStep(header: seq<string>, rows: seq<Entry>, i: nat)
    requires i < |rows|
    ensures Terminated(header + RosterFields(rows[..i + 1]), Separator)
         == Terminated(header + RosterFields(rows[..i]), Separator)
            + NatToString(rows[i].id) + "#" + rows[i].endpoint + "#" + rows[i].nickname + "#" + NatToString(rows[i].color) + "#"
  {
    var front := header + RosterFields(rows[..i]);
    EntryText(rows[i]);
    TerminatedAppend(front, EntryFields(rows[i]), Separator);
    assert rows[..i + 1][..i] == rows[..i];
    assert header + RosterFields(rows[..i + 1]) == front + EntryFields(rows[i]);
  }

  /** The roster header before any row: "tag#count#". */
  lemma {:induction false} RosterStart(tag: string, count: string)
    ensures Terminated([tag, count] + RosterFields([]), Separator) == tag + "#" + count + "#"
  {
    TerminatedCons(count, [], Separator);
    TerminatedCons(tag, [count], Separator);
    assert [tag] + [count] == [tag, count] == [tag, count] + RosterFields([]);
  }

  /** The string-accumulation loop of CreateClientList and SendOnlineClients:
      the header, then one "id#endpoint#nickname#colour#" group per row. */
  method BuildRosterMessage(tag: string, ids: seq<nat>, endpoints: seq<string>, nicknames: seq<string>, colors: seq<nat>)
    returns (message: string)
    requires |ids| == |endpoints| == |nicknames| == |colors|
    ensures message == RosterMessage(tag, Zip(ids, endpoints, nicknames, colors))
  {
    ghost var rows := Zip(ids, endpoints, nicknames, colors);
    ghost var header := [tag, NatToString(|rows|)];
    message := tag + "#" + NatToString(|ids|) + "#";
    RosterStart(tag, NatToString(|rows|));
    assert rows[..0] == [];
    var i := 0;
    while i < |ids|
      invariant 0 <= i <= |ids|
      invariant message == Terminated(header + RosterFields(rows[..i]), Separator)
    {
      RosterStep(header, rows, i);
      message := message + NatToString(ids[i]) + "#" + endpoints[i] + "#" + nicknames[i] + "#" + NatToString(colors[i]) + "#";
      i := i + 1;
    }
    assert rows[..i] == rows;
  }
}
