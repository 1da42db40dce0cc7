/** The completion callback `done` of `runGeocode`: what the user sees for
    the rows the geocoder failed on, and what reaches the host for the
    rows it resolved. */
module Results {
  import opened Json
  import opened Host
  import opened Rows

  /** `done(failed, completed)`, with `converted` standing for whatever
      csv2geojson hands its callback for `completed` (line 310 ignores its
      error): one line per failed row, then that value handed to
      `update_editor` alone. */
  method Done(page: Page, fields: seq<string>, failed: seq<Row>, converted: Json)
    returns (lines: seq<string>)
    modifies page
    ensures lines == FailLines(fields, failed)
    ensures page.log == old(page.log) + [EditorUpdated(converted)]
    ensures HostUpdates(page.log) == HostUpdates(old(page.log)) + [EditorUpdated(converted)]
  {
    lines := FailLines(fields, failed);
    DoneMakesOneUpdate(page.log, converted);
    page.UpdateEditor(converted);
  }

  /** Unlike a file import, a finished batch makes one host update, not three. */
  lemma DoneMakesOneUpdate(log: seq<Event>, converted: Json)
    ensures HostUpdates(log + [EditorUpdated(converted)]) == HostUpdates(log) + [EditorUpdated(converted)]
  {
    HostUpdatesAppend(log, [EditorUpdated(converted)]);
    assert [EditorUpdated(converted)][1..] == [];
  }
}
