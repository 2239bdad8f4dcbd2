/**
 * The sidebar's source checkboxes and the "new chat" button of the page layout.
 * The checkbox widgets and the button are replaced by their values: four
 * booleans, and a call of `ClearText` when the button is clicked.
 */
module Layout {
  import opened Documents
  import opened Selection
  import opened Session

  /** The sources the four checkboxes (Confluence, Jira, LSST Forum Docs, Local Docs) select. */
  function SelectedSources(confluence: bool, jira: bool, lsstforum: bool, localdocs: bool): seq<string> {
    Select(KnownSources, [confluence, jira, lsstforum, localdocs])
  }

  /**
   * `setup_sidebar`: resets `required_sources` and appends the key of each
   * checked box, in the sidebar's order. The new list does not depend on the
   * old one: it is rebuilt, never merged.
   */
  method SetupSidebar(state: SessionState, confluence: bool, jira: bool, lsstforum: bool, localdocs: bool)
    modifies state`requiredSources
    ensures state.requiredSources == SelectedSources(confluence, jira, lsstforum, localdocs)
  {
    ghost var flags := [confluence, jira, lsstforum, localdocs];
    state.requiredSources := [];
    SelectSnoc(KnownSources, flags, 0);
    if confluence {
      state.requiredSources := state.requiredSources + ["confluence"];
    }
    assert state.requiredSources == Select(KnownSources[..1], flags[..1]);
    SelectSnoc(KnownSources, flags, 1);
    if jira {
      state.requiredSources := state.requiredSources + ["jira"];
    }
    assert state.requiredSources == Select(KnownSources[..2], flags[..2]);
    SelectSnoc(KnownSources, flags, 2);
    if lsstforum {
      state.requiredSources := state.requiredSources + ["lsstforum"];
    }
    assert state.requiredSources == Select(KnownSources[..3], flags[..3]);
    SelectSnoc(KnownSources, flags, 3);
    if localdocs {
      state.requiredSources := state.requiredSources + ["localdocs"];
    }
    assert KnownSources[..4] == KnownSources && flags[..4] == flags;
  }

  /** A source is selected exactly when its own checkbox is checked. */
  lemma SelectedSourcesMembership(confluence: bool, jira: bool, lsstforum: bool, localdocs: bool)
    ensures ("confluence" in SelectedSources(confluence, jira, lsstforum, localdocs)) == confluence
    ensures ("jira" in SelectedSources(confluence, jira, lsstforum, localdocs)) == jira
    ensures ("lsstforum" in SelectedSources(confluence, jira, lsstforum, localdocs)) == lsstforum
    ensures ("localdocs" in SelectedSources(confluence, jira, lsstforum, localdocs)) == localdocs
    ensures forall s :: s in SelectedSources(confluence, jira, lsstforum, localdocs) ==> s in KnownSources
  {
    var flags := [confluence, jira, lsstforum, localdocs];
    assert KnownSources[0] == "confluence" && KnownSources[1] == "jira";
    assert KnownSources[2] == "lsstforum" && KnownSources[3] == "localdocs";
    assert "lsstforum"[1] != "localdocs"[1];
    SelectMembership(KnownSources, flags, "confluence");
    SelectMembership(KnownSources, flags, "jira");
    SelectMembership(KnownSources, flags, "lsstforum");
    SelectMembership(KnownSources, flags, "localdocs");
  }

  /**
   * The selection keeps the sidebar's order, has no repeats and at most four
   * entries.
   */
  lemma SelectedSourcesShape(confluence: bool, jira: bool, lsstforum: bool, localdocs: bool)
    ensures Distinct(SelectedSources(confluence, jira, lsstforum, localdocs))
    ensures |SelectedSources(confluence, jira, lsstforum, localdocs)| <= 4
    ensures forall a, b :: 0 <= a < b < |SelectedIndices([confluence, jira, lsstforum, localdocs])| ==>
              SelectedIndices([confluence, jira, lsstforum, localdocs])[a] <
              SelectedIndices([confluence, jira, lsstforum, localdocs])[b]
    ensures |SelectedSources(confluence, jira, lsstforum, localdocs)| ==
            |SelectedIndices([confluence, jira, lsstforum, localdocs])|
    ensures forall k :: 0 <= k < |SelectedIndices([confluence, jira, lsstforum, localdocs])| ==>
              SelectedSources(confluence, jira, lsstforum, localdocs)[k] ==
              KnownSources[SelectedIndices([confluence, jira, lsstforum, localdocs])[k]]
  {
    var flags := [confluence, jira, lsstforum, localdocs];
    SelectDistinct(KnownSources, flags);
    SelectedIndicesIncreasing(flags);
    SelectAtIndices(KnownSources, flags);
  }

  /** With every checkbox at its default (checked), all four sources are selected. */
  lemma DefaultSelectsAll()
    ensures SelectedSources(true, true, true, true) == KnownSources
  {
    SelectAll(KnownSources, [true, true, true, true]);
  }

  /** `clear_text`: empties the message history and clears `message_sent`. */
  method ClearText(msgs: ChatMessageHistory, state: SessionState)
    modifies msgs, state`messageSent
    ensures msgs.messages == [] && !state.messageSent
  {
    msgs.Clear();
    state.messageSent := false;
  }
}
