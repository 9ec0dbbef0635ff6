/** One run of the checker (`runCheck`): fetch, load the previous snapshot,
    notify and save. The run is modelled as the ordered list of the effects it
    has on the outside world. */
module Runner {
  import opened Snapshots
  import opened Extraction
  import opened Notification

  /** What `getLastPrices` finds in last-result.json. */
  datatype StoredPrices =
    | NoPrevious                   // no file, or a falsy JSON value (null) in it
    | Unreadable                   // the file exists but JSON.parse throws on it
    | Previous(snapshot: Snapshot)  // a list of station records

  /** The outward effects of a run: `savePrices` overwriting the stored
      value, and `sendNotification` handing a mail to the transport. */
  datatype Effect =
    | Save(saved: Parsed)
    | Notify(oldResults: Snapshot, newResults: Snapshot, forceSend: bool)

  /** The hard-coded option to mail also when nothing changed. */
  const SendAlways := true

  /** `runCheck`: a failed fetch or an unreadable stored file is caught at the
      top and ends the run without effects. A fetched value that is not a
      list makes `sendNotification` throw a TypeError on `newResults.map` or
      `newResults.forEach`, which is caught at the top as well: on the first
      run the save has already happened, on later runs it never comes. */
  function RunCheck(run: ScraperRun, parse: string -> Option<Parsed>, stored: StoredPrices): (effects: seq<Effect>)
    ensures |effects| <= 2
    ensures forall k :: 0 <= k < |effects| && effects[k].Save? ==>
              Fetch(run, parse) == Ok(effects[k].saved)
    ensures forall k :: 0 <= k < |effects| && effects[k].Notify? ==>
              Fetch(run, parse) == Ok(Stations(effects[k].newResults))
  {
    match Fetch(run, parse)
    case Err(_) => []
    case Ok(NotAList(value)) =>
      if stored.NoPrevious? then [Save(NotAList(value))] else []
    case Ok(Stations(newResults)) =>
      match stored
      case Unreadable => []
      case NoPrevious =>
        [Save(Stations(newResults)), Notify([], newResults, true)]
      case Previous(oldResults) =>
        var notifications :=
          if oldResults != newResults then [Notify(oldResults, newResults, false)]
          else if SendAlways then [Notify(oldResults, newResults, true)]
          else [];
        notifications + [Save(Stations(newResults))]
  }

  /** The snapshots saved, in order. */
  function Saved(effects: seq<Effect>): seq<Parsed>
  {
    if effects == [] then []
    else (if effects[0].Save? then [effects[0].saved] else []) + Saved(effects[1..])
  }

  /** The notifications sent, in order. */
  function Notified(effects: seq<Effect>): (r: seq<Effect>)
    ensures forall k :: 0 <= k < |r| ==> r[k].Notify?
  {
    if effects == [] then []
    else (if effects[0].Notify? then [effects[0]] else []) + Notified(effects[1..])
  }

  /** A run whose fetch fails has no effect: nothing is saved and nothing is
      mailed. */
  lemma FailedFetchHasNoEffects(run: ScraperRun, parse: string -> Option<Parsed>, stored: StoredPrices)
    requires Fetch(run, parse).Err?
    ensures RunCheck(run, parse, stored) == []
  {
  }

  /** A stored file that does not parse ends the run without effects too. */
  lemma UnreadableStoreHasNoEffects(run: ScraperRun, parse: string -> Option<Parsed>)
    ensures RunCheck(run, parse, Unreadable) == []
  {
  }

  /** A run that gets past the fetch and the load saves the new snapshot
      exactly once and sends exactly one notification about it. */
  lemma CompletedRunSavesAndNotifiesOnce(run: ScraperRun, parse: string -> Option<Parsed>, stored: StoredPrices)
    requires Fetch(run, parse).Ok? && Fetch(run, parse).value.Stations? && !stored.Unreadable?
    ensures var effects := RunCheck(run, parse, stored);
            Saved(effects) == [Fetch(run, parse).value] &&
            |Notified(effects)| == 1 && Notified(effects)[0].newResults == Fetch(run, parse).value.snapshot
  {
    var effects, newResults := RunCheck(run, parse, stored), Fetch(run, parse).value;
    assert |effects| == 2 && effects[1..][1..] == [];
    if stored.NoPrevious? {
      assert Saved(effects[1..]) == [] && Notified(effects[1..]) == [effects[1]];
    } else {
      assert Saved(effects[1..]) == [newResults] && Notified(effects[1..]) == [];
    }
  }

  /** On the first run the save comes before the notification, whose old
      snapshot is []; otherwise the notification, with the stored snapshot,
      comes first and the save last. */
  lemma RunOrder(run: ScraperRun, parse: string -> Option<Parsed>, stored: StoredPrices)
    requires Fetch(run, parse).Ok? && Fetch(run, parse).value.Stations? && !stored.Unreadable?
    ensures var effects, newResults := RunCheck(run, parse, stored), Fetch(run, parse).value;
            |effects| == 2 &&
            (stored.NoPrevious? ==> effects[0] == Save(newResults) && effects[1].Notify? && effects[1].oldResults == []) &&
            (stored.Previous? ==> effects[0].Notify? && effects[0].oldResults == stored.snapshot
                                  && effects[1] == Save(newResults))
  {
  }

  /** After the first run the notification is in changed mode exactly when
      the stored snapshot differs from the new one; `forceSend` is set
      exactly on the unchanged mail, though it is never read. */
  lemma LaterRunMode(run: ScraperRun, parse: string -> Option<Parsed>, oldResults: Snapshot)
    requires Fetch(run, parse).Ok? && Fetch(run, parse).value.Stations?
    ensures var notify := RunCheck(run, parse, Previous(oldResults))[0];
            notify.Notify? &&
            (Changed(Some(notify.oldResults), notify.newResults) <==> oldResults != Fetch(run, parse).value.snapshot) &&
            (notify.forceSend <==> !Changed(Some(notify.oldResults), notify.newResults))
  {
  }

  /** The first run with a non-empty new snapshot sends the "prices changed"
      mail with an empty list of changes. */
  lemma FirstRunMailListsNothing(run: ScraperRun, parse: string -> Option<Parsed>)
    requires Fetch(run, parse).Ok? && Fetch(run, parse).value.Stations? && Fetch(run, parse).value.snapshot != []
    ensures var notify := RunCheck(run, parse, NoPrevious)[1];
            notify.Notify? && notify.oldResults == [] &&
            Changed(Some(notify.oldResults), notify.newResults) &&
            Body(Some(notify.oldResults), notify.newResults) == Header + ChangedIntro + ListEnd + Footer
  {
    FirstRunMailIsEmptyChangeList(Fetch(run, parse).value.snapshot);
  }

  /** A fetched value that is not a list never produces a mail: the first run
      only saves it, and a later run has no effect at all. */
  lemma NonListFetchSendsNothing(run: ScraperRun, parse: string -> Option<Parsed>, stored: StoredPrices)
    requires Fetch(run, parse).Ok? && Fetch(run, parse).value.NotAList?
    ensures var effects := RunCheck(run, parse, stored);
            Notified(effects) == [] &&
            Saved(effects) == (if stored.NoPrevious? then [Fetch(run, parse).value] else [])
  {
  }

  /** Whenever the strict parse fails, the run mails nothing: the fallback
      only ever cuts out a JSON object, so a successful fallback fetch is not
      a list. */
  lemma FallbackRunSendsNothing(run: ScraperRun, parse: string -> Option<Parsed>, stored: StoredPrices)
    requires ParsesBracesAsObjects(parse)
    requires run.Output? && parse(run.stdout).None?
    ensures Notified(RunCheck(run, parse, stored)) == []
  {
  }
}
