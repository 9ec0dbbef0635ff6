/** The e-mail report: whether a run counts as "changed", the HTML body and
    the subject line handed to the mail transport. */
module Notification {
  import opened Snapshots

  const Header := "<h2>⛽ Brandstofprijzen gecontroleerd</h2>"
  const ChangedIntro := "<p>De volgende tankstations hebben nieuwe prijzen:</p><ul>"
  const UnchangedIntro := "<p>✅ Er zijn geen prijsveranderingen vandaag. Huidige prijzen:</p><ul>"
  const ListEnd := "</ul>"
  const Footer := "<hr><small>Dit bericht is automatisch gegenereerd door de brandstofprijschecker.</small>"
  const ChangedSubject := "⚠️ Brandstofprijs gewijzigd!"
  const UnchangedSubject := "✅ Geen prijsveranderingen"

  /** A run counts as changed when an old snapshot is given (any array,
      the empty one included, is truthy) and it serialises differently from
      the new one; serialisation equality is equality of the records. */
  predicate Changed(oldResults: Option<Snapshot>, newResults: Snapshot)
  {
    oldResults.Some? && oldResults.value != newResults
  }

  /** `lines.join("")`: the lines concatenated in order. */
  function Join(lines: seq<string>): string
    decreases |lines|
  {
    if lines == [] then "" else Join(lines[..|lines| - 1]) + lines[|lines| - 1]
  }

  // ---------------------------------------------------------------------------
  // Changed mode: a positional diff, new[i] against old[i]

  /** `oldResults[index]?.prijs`: undefined past the end of the old snapshot. */
  function OldPrice(oldResults: Snapshot, index: nat): Value
  {
    if index < |oldResults| then oldResults[index].prijs else Undefined
  }

  /** The list item reporting that the station at `index` of the new snapshot moved from
      the price at `index` of the old one to its own price. */
  function ChangeItem(oldResults: Snapshot, newResults: Snapshot, index: nat): string
    requires index < |newResults|
  {
    "<li><strong>" + Show(newResults[index].naam) + "</strong>: <del>" + Show(OldPrice(oldResults, index))
      + "</del> → <ins>" + Show(newResults[index].prijs) + "</ins></li>"
  }

  /** The `map` callback: an item when the old price is truthy and differs
      strictly from the new one, the empty string otherwise. */
  function ChangeLine(oldResults: Snapshot, newResults: Snapshot, index: nat): string
    requires index < |newResults|
  {
    var oldPrice := OldPrice(oldResults, index);
    if Truthy(oldPrice) && oldPrice != newResults[index].prijs then ChangeItem(oldResults, newResults, index) else ""
  }

  function ChangeLines(oldResults: Snapshot, newResults: Snapshot): seq<string>
  {
    seq(|newResults|, i requires 0 <= i < |newResults| => ChangeLine(oldResults, newResults, i))
  }

  /** Index i of the new snapshot is reported when the old one has a record at i whose price is
      present and differs from the price of new's record at i. */
  predicate Reported(oldResults: Snapshot, newResults: Snapshot, i: nat)
  {
    i < |oldResults| && i < |newResults| && Truthy(oldResults[i].prijs) && oldResults[i].prijs != newResults[i].prijs
  }

  /** The reported indices among the first n of the new snapshot, in increasing order. */
  function ReportedUpTo(oldResults: Snapshot, newResults: Snapshot, n: nat): (r: seq<nat>)
    requires n <= |newResults|
    ensures |r| <= n
    ensures forall k :: 0 <= k < |r| ==> r[k] < n && Reported(oldResults, newResults, r[k])
    decreases n
  {
    if n == 0 then []
    else ReportedUpTo(oldResults, newResults, n - 1) + (if Reported(oldResults, newResults, n - 1) then [n - 1] else [])
  }

  /** The change items for the given indices of the new snapshot, in that order. */
  function ItemsAt(oldResults: Snapshot, newResults: Snapshot, indices: seq<nat>): seq<string>
    requires forall k :: 0 <= k < |indices| ==> indices[k] < |newResults|
  {
    seq(|indices|, k requires 0 <= k < |indices| => ChangeItem(oldResults, newResults, indices[k]))
  }

  // ---------------------------------------------------------------------------
  // Unchanged mode: every station of the new snapshot with its current price

  function StationLine(station: Station): string
  {
    "<li><strong>" + Show(station.naam) + "</strong>: " + Show(station.prijs) + "</li>"
  }

  function StationLines(stations: Snapshot): seq<string>
  {
    seq(|stations|, i requires 0 <= i < |stations| => StationLine(stations[i]))
  }

  // ---------------------------------------------------------------------------
  // The whole message

  /** The HTML body `sendNotification` builds. */
  function Body(oldResults: Option<Snapshot>, newResults: Snapshot): string
  {
    Header
      + (if Changed(oldResults, newResults) then ChangedIntro + Join(ChangeLines(oldResults.value, newResults)) + ListEnd
         else UnchangedIntro + Join(StationLines(newResults)) + ListEnd)
      + Footer
  }

  /** Builds the mail options of `sendNotification`: the subject and the HTML
      body. `forceSend` is accepted and never read. */
  method SendNotification(oldResults: Option<Snapshot>, newResults: Snapshot, forceSend: bool)
    returns (subject: string, html: string)
    ensures html == Body(oldResults, newResults)
    ensures subject == (if Changed(oldResults, newResults) then ChangedSubject else UnchangedSubject)
  {
    html := Header;
    var changed := Changed(oldResults, newResults);
    if changed {
      html := html + ChangedIntro;
      var lines := seq(|newResults|, i requires 0 <= i < |newResults| => ChangeLine(oldResults.value, newResults, i));
      AppendAssoc(ChangedIntro, Join(lines), ListEnd);
      AppendAssoc(html, ChangedIntro, Join(lines) + ListEnd);
      html := html + (Join(lines) + ListEnd);
    } else {
      html := html + UnchangedIntro;
      ghost var opening := html;
      for i := 0 to |newResults|
        invariant html == opening + Join(StationLines(newResults[..i]))
      {
        ListingGrows(newResults, i);
        AppendAssoc(opening, Join(StationLines(newResults[..i])), StationLine(newResults[i]));
        html := html + StationLine(newResults[i]);
      }
      assert newResults[..|newResults|] == newResults;
      AppendAssoc(Header, UnchangedIntro, Join(StationLines(newResults)));
      AppendAssoc(Header, UnchangedIntro + Join(StationLines(newResults)), ListEnd);
      html := html + ListEnd;
    }
    html := html + Footer;
    subject := if changed then ChangedSubject else UnchangedSubject;
  }

  lemma AppendAssoc(a: string, b: string, c: string)
    ensures (a + b) + c == a + (b + c)
  {
  }

  lemma ListingGrows(stations: Snapshot, i: nat)
    requires i < |stations|
    ensures Join(StationLines(stations[..i + 1])) == Join(StationLines(stations[..i])) + StationLine(stations[i])
  {
    assert StationLines(stations[..i + 1])[..i] == StationLines(stations[..i]);
  }

  // ---------------------------------------------------------------------------
  // Properties

  lemma {:induction false} JoinAppend(a: seq<string>, b: seq<string>)
    ensures Join(a + b) == Join(a) + Join(b)
    decreases |b|
  {
    if b == [] {
      assert a + b == a;
      assert Join(a) + "" == Join(a);
    } else {
      var b', last := b[..|b| - 1], b[|b| - 1];
      assert a + b == (a + b') + [last];
      JoinSnoc(a + b', last);
      JoinSnoc(b', last);
      JoinAppend(a, b');
      AppendAssoc(Join(a), Join(b'), last);
    }
  }

  lemma {:induction false} JoinOfEmptyLines(lines: seq<string>)
    requires forall i :: 0 <= i < |lines| ==> lines[i] == ""
    ensures Join(lines) == ""
    decreases |lines|
  {
    if lines != [] {
      JoinOfEmptyLines(lines[..|lines| - 1]);
    }
  }

  /** The body always opens with the fixed header followed by the opening of
      the branch taken, and always closes with the fixed footer. */
  lemma BodyFraming(oldResults: Option<Snapshot>, newResults: Snapshot)
    ensures var body := Body(oldResults, newResults);
            |Footer| <= |body| && body[|body| - |Footer|..] == Footer
    ensures Changed(oldResults, newResults) ==> Header + ChangedIntro <= Body(oldResults, newResults)
    ensures !Changed(oldResults, newResults) ==> Header + UnchangedIntro <= Body(oldResults, newResults)
  {
  }

  /** Identical snapshots never take the changed branch, and an absent old
      snapshot never does either. */
  lemma IdenticalIsUnchanged(s: Snapshot)
    ensures !Changed(Some(s), s) && !Changed(None, s)
    ensures Body(Some(s), s) == Body(None, s)
  {
  }

  /** A changed line is non-empty exactly at a reported index; indices of the
      new snapshot at or beyond the end of the old one never yield an item. */
  lemma ChangeLineIff(oldResults: Snapshot, newResults: Snapshot, i: nat)
    requires i < |newResults|
    ensures ChangeLine(oldResults, newResults, i) != "" <==> Reported(oldResults, newResults, i)
    ensures i >= |oldResults| ==> ChangeLine(oldResults, newResults, i) == ""
    ensures Reported(oldResults, newResults, i) ==> ChangeLine(oldResults, newResults, i) == ChangeItem(oldResults, newResults, i)
  {
  }

  /** Joining one more line appends it to the joined text. */
  lemma JoinSnoc(lines: seq<string>, line: string)
    ensures Join(lines + [line]) == Join(lines) + line
  {
  }

  lemma ChangeLinesGrow(oldResults: Snapshot, newResults: Snapshot, k: nat)
    requires k < |newResults|
    ensures Join(ChangeLines(oldResults, newResults)[..k + 1])
         == Join(ChangeLines(oldResults, newResults)[..k]) + ChangeLine(oldResults, newResults, k)
  {
    var lines := ChangeLines(oldResults, newResults);
    assert lines[..k + 1] == lines[..k] + [lines[k]];
    JoinSnoc(lines[..k], lines[k]);
  }

  lemma ReportedItemsGrow(oldResults: Snapshot, newResults: Snapshot, k: nat)
    requires k < |newResults|
    ensures Join(ItemsAt(oldResults, newResults, ReportedUpTo(oldResults, newResults, k + 1)))
         == Join(ItemsAt(oldResults, newResults, ReportedUpTo(oldResults, newResults, k)))
            + ChangeLine(oldResults, newResults, k)
  {
    var before := ReportedUpTo(oldResults, newResults, k);
    ChangeLineIff(oldResults, newResults, k);
    if Reported(oldResults, newResults, k) {
      var item := ChangeItem(oldResults, newResults, k);
      assert ItemsAt(oldResults, newResults, before + [k]) == ItemsAt(oldResults, newResults, before) + [item];
      JoinSnoc(ItemsAt(oldResults, newResults, before), item);
    } else {
      assert before + [] == before;
      var joined := Join(ItemsAt(oldResults, newResults, before));
      assert joined + "" == joined;
    }
  }

  /** The changed-mode list is the change items of the reported indices, in
      increasing index order. */
  lemma {:induction false} ChangedListUpTo(oldResults: Snapshot, newResults: Snapshot, n: nat)
    requires n <= |newResults|
    ensures Join(ChangeLines(oldResults, newResults)[..n])
         == Join(ItemsAt(oldResults, newResults, ReportedUpTo(oldResults, newResults, n)))
    decreases n
  {
    if n > 0 {
      var lines := ChangeLines(oldResults, newResults);
      var line := ChangeLine(oldResults, newResults, n - 1);
      ChangedListUpTo(oldResults, newResults, n - 1);
      ChangeLinesGrow(oldResults, newResults, n - 1);
      ReportedItemsGrow(oldResults, newResults, n - 1);
      var shown := Join(lines[..n - 1]);
      assert shown == Join(ItemsAt(oldResults, newResults, ReportedUpTo(oldResults, newResults, n - 1)));
      assert Join(lines[..n]) == shown + line;
    }
  }

  /** The reported indices are listed in increasing order and none is
      missing. */
  lemma {:induction false} ReportedUpToOrderedAndComplete(oldResults: Snapshot, newResults: Snapshot, n: nat)
    requires n <= |newResults|
    ensures var r := ReportedUpTo(oldResults, newResults, n);
            (forall k, l :: 0 <= k < l < |r| ==> r[k] < r[l]) &&
            (forall i :: 0 <= i < n && Reported(oldResults, newResults, i) ==> i in r)
    decreases n
  {
    if n > 0 {
      ReportedUpToOrderedAndComplete(oldResults, newResults, n - 1);
    }
  }

  /** The whole changed-mode list: the change items of the reported indices,
      at most |newResults| of them. */
  lemma ChangedListShowsReported(oldResults: Snapshot, newResults: Snapshot)
    ensures Join(ChangeLines(oldResults, newResults)) == Join(ItemsAt(oldResults, newResults, ReportedUpTo(oldResults, newResults, |newResults|)))
    ensures |ReportedUpTo(oldResults, newResults, |newResults|)| <= |newResults|
  {
    ChangedListUpTo(oldResults, newResults, |newResults|);
    assert ChangeLines(oldResults, newResults)[..|newResults|] == ChangeLines(oldResults, newResults);
  }

  /** Pairing is by position: records of the old snapshot beyond the length of the new one are
      never shown. */
  lemma OldTailIgnored(oldResults: Snapshot, extra: Snapshot, newResults: Snapshot)
    requires |newResults| <= |oldResults|
    ensures ChangeLines(oldResults + extra, newResults) == ChangeLines(oldResults, newResults)
  {
  }

  /** Pairing is by position: the names in the old snapshot are never consulted. */
  lemma OldNamesIgnored(old1: Snapshot, old2: Snapshot, newResults: Snapshot)
    requires |old1| == |old2|
    requires forall i :: 0 <= i < |old1| ==> old1[i].prijs == old2[i].prijs
    ensures ChangeLines(old1, newResults) == ChangeLines(old2, newResults)
  {
  }

  /** The unchanged-mode listing is one line per station, in order: listing
      a concatenation is concatenating the listings. */
  lemma ListingDistributes(a: Snapshot, b: Snapshot)
    ensures Join(StationLines(a + b)) == Join(StationLines(a)) + Join(StationLines(b))
  {
    assert StationLines(a + b) == StationLines(a) + StationLines(b);
    JoinAppend(StationLines(a), StationLines(b));
  }

  /** The first run notifies with old = []: for a non-empty new snapshot
      that counts as changed, yet no index of [] exists, so the mail is the
      "new prices" mail with an empty list. */
  lemma FirstRunMailIsEmptyChangeList(newResults: Snapshot)
    requires newResults != []
    ensures Changed(Some([]), newResults)
    ensures Body(Some([]), newResults) == Header + ChangedIntro + ListEnd + Footer
  {
    forall i | 0 <= i < |newResults| ensures ChangeLines([], newResults)[i] == "" {
      ChangeLineIff([], newResults, i);
    }
    JoinOfEmptyLines(ChangeLines([], newResults));
  }

  /** The first run with an empty new snapshot is the "no changes" mail. */
  lemma FirstRunWithNoStations()
    ensures !Changed(Some([]), [])
    ensures Body(Some([]), []) == Header + UnchangedIntro + ListEnd + Footer
  {
  }

  /** One price moves at index 0, index 1 is unchanged: only index 0 is
      reported, showing 1.80 struck through and 1.85 inserted. */
  lemma OnePriceMoved()
    ensures var oldResults := [Station(Text("A"), Text("1.80")), Station(Text("B"), Text("1.75"))];
            var newResults := [Station(Text("A"), Text("1.85")), Station(Text("B"), Text("1.75"))];
            Changed(Some(oldResults), newResults) &&
            ReportedUpTo(oldResults, newResults, 2) == [0] &&
            Join(ChangeLines(oldResults, newResults))
              == "<li><strong>" + "A" + "</strong>: <del>" + "1.80" + "</del> → <ins>" + "1.85" + "</ins></li>"
  {
    var oldResults := [Station(Text("A"), Text("1.80")), Station(Text("B"), Text("1.75"))];
    var newResults := [Station(Text("A"), Text("1.85")), Station(Text("B"), Text("1.75"))];
    assert "1.80"[3] != "1.85"[3];
    assert Reported(oldResults, newResults, 0) && !Reported(oldResults, newResults, 1);
    var item := ChangeItem(oldResults, newResults, 0);
    ChangedListShowsReported(oldResults, newResults);
    assert ReportedUpTo(oldResults, newResults, 2) == [0];
    assert ItemsAt(oldResults, newResults, [0]) == [item];
    JoinSnoc([], item);
  }

  /** Two stations swap places while no price moves: both are reported, each
      with the other station's old price. */
  lemma ReorderingMisattributes()
    ensures var oldResults := [Station(Text("A"), Text("1.80")), Station(Text("B"), Text("1.75"))];
            var newResults := [Station(Text("B"), Text("1.75")), Station(Text("A"), Text("1.80"))];
            Changed(Some(oldResults), newResults) &&
            ReportedUpTo(oldResults, newResults, 2) == [0, 1] &&
            Join(ChangeLines(oldResults, newResults)) ==
              ("<li><strong>" + "B" + "</strong>: <del>" + "1.80" + "</del> → <ins>" + "1.75" + "</ins></li>")
              + ("<li><strong>" + "A" + "</strong>: <del>" + "1.75" + "</del> → <ins>" + "1.80" + "</ins></li>")
  {
    var oldResults := [Station(Text("A"), Text("1.80")), Station(Text("B"), Text("1.75"))];
    var newResults := [Station(Text("B"), Text("1.75")), Station(Text("A"), Text("1.80"))];
    assert "1.80"[2] != "1.75"[2];
    assert oldResults[0] != newResults[0];
    assert Reported(oldResults, newResults, 0) && Reported(oldResults, newResults, 1);
    var first := ChangeItem(oldResults, newResults, 0);
    var second := ChangeItem(oldResults, newResults, 1);
    assert ReportedUpTo(oldResults, newResults, 1) == [0];
    assert ReportedUpTo(oldResults, newResults, 2) == [0, 1];
    ChangeLineIff(oldResults, newResults, 0);
    ChangeLineIff(oldResults, newResults, 1);
    var lines := ChangeLines(oldResults, newResults);
    assert lines == [first] + [second];
    JoinSnoc([], first);
    assert Join([first]) == first;
    JoinSnoc([first], second);
  }
}
