/**
 * The /broadcast-trains message: the fixed "none found" sentence for an empty list, otherwise
 * the first three records rendered and joined after a fixed prefix; and the text the handler
 * replies with.
 */
module Composition {
  import opened Extraction

  const StationName: string := "Cathedral Parkway"
  const NoTrainsAnnouncement: string := "No upcoming trains found for " + StationName + "."
  const NoTrainsReply: string := "No trains found."
  const AnnouncementPrefix: string := "Next trains at " + StationName + ": "
  const ReplyPrefix: string := "Broadcast triggered: "
  const Separator: string := ", "

  /** How many of the soonest records the announcement names. */
  const MaxAnnounced: nat := 3

  /** `${t.direction} ${t.routeId} train in ${t.arrivalTimeRel}` */
  function Render(t: Train): string {
    t.direction.Label() + " " + t.routeId + " train in " + t.arrivalTimeRel
  }

  /** trains.map(Render) */
  function RenderAll(trains: seq<Train>): seq<string> {
    seq(|trains|, i requires 0 <= i < |trains| => Render(trains[i]))
  }

  /** Array.prototype.join: the parts with the separator between each two neighbours. */
  function Join(parts: seq<string>, separator: string): string {
    if parts == [] then ""
    else if |parts| == 1 then parts[0]
    else parts[0] + separator + Join(parts[1..], separator)
  }

  /** trains.slice(0, MaxAnnounced) */
  function Soonest(trains: seq<Train>): seq<Train> {
    if |trains| <= MaxAnnounced then trains else trains[..MaxAnnounced]
  }

  /** The rendered soonest records, joined. */
  function Entries(trains: seq<Train>): string {
    Join(RenderAll(Soonest(trains)), Separator)
  }

  /** What is spoken, and what the HTTP handler replies. */
  datatype Broadcast = Broadcast(announcement: string, reply: string)

  /** The broadcast for a sorted trains list. */
  function Compose(trains: seq<Train>): Broadcast {
    if |trains| == 0 then
      Broadcast(NoTrainsAnnouncement, NoTrainsReply)
    else
      var message := AnnouncementPrefix + Entries(trains);
      Broadcast(message, ReplyPrefix + message)
  }

  /**
   * The fixed sentence is spoken, and "No trains found." replied, exactly when the list is
   * empty; otherwise the announcement starts with the prefix and the reply repeats it after
   * "Broadcast triggered: ".
   */
  lemma ComposeSpec(trains: seq<Train>)
    ensures Compose(trains).announcement == NoTrainsAnnouncement <==> trains == []
    ensures Compose(trains).reply == NoTrainsReply <==> trains == []
    ensures trains != [] ==>
              && |AnnouncementPrefix| <= |Compose(trains).announcement|
              && Compose(trains).announcement[..|AnnouncementPrefix|] == AnnouncementPrefix
              && Compose(trains).reply == ReplyPrefix + Compose(trains).announcement
  {
    if trains != [] {
      var message := AnnouncementPrefix + Entries(trains);
      assert message[1] == 'e';
      assert NoTrainsAnnouncement[1] == 'o';
      var reply := ReplyPrefix + message;
      assert reply[0] == 'B' && NoTrainsReply[0] == 'N';
    }
  }

  /** Joining one, two or three parts. */
  lemma JoinFew(parts: seq<string>, separator: string)
    ensures |parts| == 1 ==> Join(parts, separator) == parts[0]
    ensures |parts| == 2 ==> Join(parts, separator) == parts[0] + separator + parts[1]
    ensures |parts| == 3 ==>
              Join(parts, separator) == parts[0] + separator + parts[1] + separator + parts[2]
  {
    if |parts| == 2 {
      assert Join(parts[1..], separator) == parts[1];
    } else if |parts| == 3 {
      assert parts[1..][1..] == [parts[2]];
      assert Join(parts[1..], separator) == parts[1] + separator + parts[2];
    }
  }

  /**
   * The announcement names the first one, two or three records of the list, in list order,
   * separated by ", ".
   */
  lemma ComposeNamesSoonest(trains: seq<Train>)
    ensures |trains| == 1 ==> Compose(trains).announcement == AnnouncementPrefix + Render(trains[0])
    ensures |trains| == 2 ==>
              Compose(trains).announcement
              == AnnouncementPrefix + Render(trains[0]) + Separator + Render(trains[1])
    ensures |trains| >= 3 ==>
              Compose(trains).announcement
              == AnnouncementPrefix + Render(trains[0]) + Separator + Render(trains[1]) + Separator + Render(trains[2])
  {
    if |trains| > 0 {
      assert Compose(trains).announcement == AnnouncementPrefix + Entries(trains);
      EntriesOfSoonest(trains);
      if |trains| == 2 {
        PrefixTwo(AnnouncementPrefix, Render(trains[0]), Separator, Render(trains[1]));
      } else if |trains| >= 3 {
        PrefixThree(AnnouncementPrefix, Render(trains[0]), Separator, Render(trains[1]), Render(trains[2]));
      }
    }
  }

  /** Concatenation regrouped: a prefix before two joined parts. */
  lemma PrefixTwo(p: string, a: string, sep: string, b: string)
    ensures p + (a + sep + b) == p + a + sep + b
  {
  }

  /** Concatenation regrouped: a prefix before three joined parts. */
  lemma PrefixThree(p: string, a: string, sep: string, b: string, c: string)
    ensures p + (a + sep + b + sep + c) == p + a + sep + b + sep + c
  {
  }

  lemma EntriesOfSoonest(trains: seq<Train>)
    ensures |trains| == 1 ==> Entries(trains) == Render(trains[0])
    ensures |trains| == 2 ==> Entries(trains) == Render(trains[0]) + Separator + Render(trains[1])
    ensures |trains| >= 3 ==>
              Entries(trains) == Render(trains[0]) + Separator + Render(trains[1]) + Separator + Render(trains[2])
  {
    var parts := RenderAll(Soonest(trains));
    JoinFew(parts, Separator);
    if |trains| == 1 {
      assert parts == [Render(trains[0])];
    } else if |trains| == 2 {
      assert parts == [Render(trains[0]), Render(trains[1])];
    } else if |trains| >= 3 {
      assert parts == [Render(trains[0]), Render(trains[1]), Render(trains[2])];
    }
  }

  /** Records after the third never change what is spoken or replied. */
  lemma ComposeIgnoresLater(trains: seq<Train>, later: seq<Train>)
    requires |trains| >= MaxAnnounced
    ensures Compose(trains + later) == Compose(trains)
  {
    assert Soonest(trains + later) == Soonest(trains);
  }
}
