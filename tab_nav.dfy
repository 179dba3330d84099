/**
 * The `Ext.TabPanel` override of root/static/rapidapp/js/RapidApp/History.js:
 * a tab panel reports user tab changes to the AutoHistory coordinator and
 * applies replayed navigation through `setNavState`, with the one-bit flag
 * `internalTabChange` keeping replayed changes out of the history.
 *
 * Tabs are identified by their component ids; `Ext.getCmp` is the set
 * `components` of live ids. `setActiveTab` is modelled as making the tab
 * active; the `beforetabchange` notification it fires is delivered as a
 * separate `BeforeTabChange` call, and `ReplayTabChange` puts the two together.
 */
module TabNav {
  import opened Strings
  import opened History

  /** Whether a `beforetabchange` notification records a history event:
      both tabs are present and the change was not caused by `setNavState`. */
  predicate RecordsTabChange(internalTabChange: bool, newTab: Option<string>, currentTab: Option<string>) {
    newTab.Some? && currentTab.Some? && !internalTabChange
  }

  /** The history a `beforetabchange` notification leaves behind. */
  function TabChangeStep(s: HistState, panelId: string, internalTabChange: bool,
                         newTab: Option<string>, currentTab: Option<string>): (r: HistState)
    requires Consistent(s)
    ensures Consistent(r)
    ensures internalTabChange || newTab.None? || currentTab.None? ==> r == s
    ensures RecordsTabChange(internalTabChange, newTab, currentTab) && newTab.value != "" ==>
      r.pushed == s.pushed + [r.currentNav] && r.navIdx == (s.navIdx + 1) % 100
  {
    if RecordsTabChange(internalTabChange, newTab, currentTab) then
      RecordStep(s, panelId, currentTab.value, newTab.value)
    else s
  }

  /** Re-entrancy: right after a `setNavState` on a known tab the flag is set,
      so the notification that follows records nothing, whatever the tabs. */
  lemma ReplayRecordsNothing(s: HistState, panelId: string, newTab: Option<string>, currentTab: Option<string>)
    requires Consistent(s)
    ensures TabChangeStep(s, panelId, true, newTab, currentTab) == s
  {
  }

  /** A user tab change between two present tabs with the flag clear records
      exactly `(panelId, currentTabId, newTabId)`; with colon-free ids the
      pushed token decodes to them. */
  lemma {:induction false} UserTabChangeRecords(s: HistState, panelId: string, newTab: string, currentTab: string)
    requires Consistent(s) && newTab != ""
    requires ':' !in panelId && ':' !in newTab && ':' !in currentTab
    ensures var r := TabChangeStep(s, panelId, false, Some(newTab), Some(currentTab));
      && r.pushed == s.pushed + [r.currentNav]
      && Fields(r.currentNav) == [NatToString((s.navIdx + 1) % 100), panelId, currentTab, newTab]
  {
    RecordedTokenDecodes(s, panelId, currentTab, newTab);
  }

  /** A tab panel with the history override. */
  class TabPanel {
    const id: string
    var internalTabChange: bool
    var activeTab: Option<string>

    constructor (id: string)
      ensures this.id == id && !internalTabChange && activeTab == None
    {
      this.id := id;
      internalTabChange := false;
      activeTab := None;
    }

    /** The `beforetabchange` handler: record a user change, clear the flag,
        and let the change proceed. */
    method BeforeTabChange(hist: AutoHistory, newTab: Option<string>, currentTab: Option<string>) returns (proceed: bool)
      requires hist.Valid()
      modifies this`internalTabChange, hist
      ensures proceed && !internalTabChange && hist.Valid()
      ensures hist.State() == TabChangeStep(old(hist.State()), id, old(internalTabChange), newTab, currentTab)
    {
      if newTab.Some? && currentTab.Some? && !internalTabChange {
        hist.RecordHistEvent(id, currentTab.value, newTab.value);
      }
      internalTabChange := false;
      return true;
    }

    /** `setNavState(navVal)`: a known tab id raises the flag and becomes the
        active tab; an unknown one changes nothing. */
    method SetNavState(navVal: string, components: set<string>)
      modifies this
      ensures navVal in components ==> internalTabChange && activeTab == Some(navVal)
      ensures navVal !in components ==> internalTabChange == old(internalTabChange) && activeTab == old(activeTab)
    {
      if navVal in components {
        internalTabChange := true;
        activeTab := Some(navVal);
      }
    }

    /** `getNavState()`: the active tab's id, "" when no tab is active. */
    function GetNavState(): (r: string)
      reads this
      ensures activeTab.Some? ==> r == activeTab.value
      ensures activeTab.None? ==> r == ""
    {
      if activeTab.Some? then activeTab.value else ""
    }
  }

  /** A replayed navigation on a tab panel: `setNavState` on a known tab and
      the `beforetabchange` notification its `setActiveTab` fires. No history
      event is recorded, the flag is clear again, and the panel reports the
      replayed state. */
  method ReplayTabChange(panel: TabPanel, hist: AutoHistory, navVal: string, components: set<string>)
    requires hist.Valid() && navVal in components
    modifies panel, hist
    ensures hist.Valid() && hist.State() == old(hist.State())
    ensures !panel.internalTabChange && panel.GetNavState() == navVal
  {
    var previous := panel.activeTab;
    panel.SetNavState(navVal, components);
    var _ := panel.BeforeTabChange(hist, Some(navVal), previous);
  }
}
