/**
 * The decisions of the template-controller plugin of
 * share/assets/js/091-Template-Controller.js: which click opens which flow,
 * how template names are cleaned, which requests go to the template service,
 * what a save outcome leads to, when the containing tab is reloaded, and the
 * rule that at most one editor window is open.
 *
 * Ajax requests are records in the log `requests`; a response is delivered
 * by `OnResponse` for one logged request. Editor windows are numbered and the
 * set `openWindows` says which are open. `Ext.Msg` is the one message box
 * `msg`. The tab container is abstract: whether it has `loadContent`, which
 * tabs it was asked to remove, which configurations it was asked to load.
 */
module TemplateController {
  import opened Strings

  // ---------------------------------------------------------------------------
  // template names
  // ---------------------------------------------------------------------------

  predicate IsLineBreak(c: char) {
    c == '\r' || c == '\n'
  }

  /** `name.replace(/(\r\n|\n|\r)/gm, "")`: scanning left to right, each
      match of `\r\n`, `\n` or `\r` (tried in that order) is dropped. */
  function StripNewlines(s: string): (r: string)
    ensures |r| <= |s|
    decreases |s|
  {
    if s == [] then []
    else if |s| >= 2 && s[0] == '\r' && s[1] == '\n' then StripNewlines(s[2..])
    else if IsLineBreak(s[0]) then StripNewlines(s[1..])
    else [s[0]] + StripNewlines(s[1..])
  }

  /** The raw name with every `\r` and `\n` removed, the others kept in order. */
  function RemoveLineBreaks(s: string): (r: string)
    decreases |s|
  {
    if s == [] then []
    else (if IsLineBreak(s[0]) then [] else [s[0]]) + RemoveLineBreaks(s[1..])
  }

  lemma {:induction false} RemoveLineBreaksHasNone(s: string)
    ensures forall i :: 0 <= i < |RemoveLineBreaks(s)| ==> !IsLineBreak(RemoveLineBreaks(s)[i])
    decreases |s|
  {
    if s != [] {
      RemoveLineBreaksHasNone(s[1..]);
    }
  }

  /** The regular expression removes exactly the line-break characters. */
  lemma {:induction false} StripNewlinesRemovesLineBreaks(s: string)
    ensures StripNewlines(s) == RemoveLineBreaks(s)
    decreases |s|
  {
    if s == [] {
    } else if |s| >= 2 && s[0] == '\r' && s[1] == '\n' {
      StripNewlinesRemovesLineBreaks(s[2..]);
      assert s[1..][1..] == s[2..];
      assert RemoveLineBreaks(s[1..]) == RemoveLineBreaks(s[2..]);
    } else {
      StripNewlinesRemovesLineBreaks(s[1..]);
    }
  }

  /** Stripping twice is stripping once. */
  lemma {:induction false} StripNewlinesIdempotent(s: string)
    ensures StripNewlines(StripNewlines(s)) == StripNewlines(s)
  {
    var r := StripNewlines(s);
    StripNewlinesRemovesLineBreaks(s);
    RemoveLineBreaksHasNone(s);
    StripNewlinesRemovesLineBreaks(r);
    NoLineBreaksUnchanged(r);
  }

  lemma {:induction false} NoLineBreaksUnchanged(s: string)
    requires forall i :: 0 <= i < |s| ==> !IsLineBreak(s[i])
    ensures RemoveLineBreaks(s) == s
    decreases |s|
  {
    if s != [] {
      NoLineBreaksUnchanged(s[1..]);
      assert [s[0]] + s[1..] == s;
    }
  }

  /** What `getTplElMeta` extracts from a template fragment. */
  datatype TemplateMeta = TemplateMeta(name: string)

  /** `getTplElMeta`: the name shown in the fragment's metadata node, without
      line breaks. */
  function TplElMeta(rawName: string): (m: TemplateMeta)
    ensures '\r' !in m.name && '\n' !in m.name
    ensures m.name == RemoveLineBreaks(rawName)
  {
    StripNewlinesRemovesLineBreaks(rawName);
    RemoveLineBreaksHasNone(rawName);
    TemplateMeta(StripNewlines(rawName))
  }

  // ---------------------------------------------------------------------------
  // requests
  // ---------------------------------------------------------------------------

  datatype Op = Get | Create | Set

  function OpName(op: Op): string {
    match op
    case Get => "get"
    case Create => "create"
    case Set => "set"
  }

  /** `[base, op, name].join('/')`. */
  function RequestUrl(base: string, op: Op, name: string): (url: string)
    ensures url == base + "/" + OpName(op) + "/" + name
  {
    var parts := [base, OpName(op), name];
    assert parts[1..] == [OpName(op), name] && parts[1..][1..] == [name];
    assert Join(parts[1..], '/') == OpName(op) + ['/'] + name;
    assert Join(parts, '/') == base + ['/'] + (OpName(op) + ['/'] + name);
    Join(parts, '/')
  }

  /** The name is the last path segment of its URL whenever it has no '/'. */
  lemma {:induction false} UrlEndsWithName(base: string, op: Op, name: string)
    requires '/' !in name
    ensures var segs := Split(RequestUrl(base, op, name), '/');
      segs[|segs| - 1] == name
  {
    var o := OpName(op);
    assert RequestUrl(base, op, name) == base + ['/'] + (o + ['/'] + name);
    SplitAtSep(base, o + ['/'] + name, '/');
    SplitAtSep(o, name, '/');
    SplitNoSep(name, '/');
  }

  /** The parameters `setTemplate` posts: always `content`, and
      `skip_validate = 1` exactly when asked to skip validation. */
  function SaveParams(content: string, skipValidate: bool): (p: map<string, string>)
    ensures "content" in p && p["content"] == content
    ensures "skip_validate" in p <==> skipValidate
    ensures skipValidate ==> p["skip_validate"] == "1"
    ensures p.Keys <= {"content", "skip_validate"}
  {
    var params := map["content" := content];
    if skipValidate then params["skip_validate" := "1"] else params
  }

  datatype HttpMethod = GET | POST

  /** What the plugin does with a request's answer, with the values its
      callback closes over. */
  datatype Purpose =
    | FetchForEdit(name: string)
    | CreateThenEdit(name: string)
    | Save(name: string, content: string)

  datatype Request = Request(verb: HttpMethod, url: string, params: map<string, string>, purpose: Purpose)

  datatype Response = Ok(text: string) | Failed(status: int, text: string)

  function EditRequest(base: string, name: string): (r: Request)
    ensures r.verb == GET && r.url == base + "/get/" + name && r.params == map[]
    ensures r.purpose == FetchForEdit(name)
  {
    Request(GET, RequestUrl(base, Get, name), map[], FetchForEdit(name))
  }

  function CreateRequest(base: string, name: string): (r: Request)
    ensures r.verb == GET && r.url == base + "/create/" + name && r.params == map[]
    ensures r.purpose == CreateThenEdit(name)
  {
    Request(GET, RequestUrl(base, Create, name), map[], CreateThenEdit(name))
  }

  function SaveRequest(base: string, name: string, content: string, skipValidate: bool): (r: Request)
    ensures r.verb == POST && r.url == base + "/set/" + name
    ensures "content" in r.params && r.params["content"] == content && ("skip_validate" in r.params <==> skipValidate)
    ensures r.purpose == Save(name, content)
  {
    Request(POST, RequestUrl(base, Set, name), SaveParams(content, skipValidate), Save(name, content))
  }

  // ---------------------------------------------------------------------------
  // clicks
  // ---------------------------------------------------------------------------

  /** A click: the classes of the clicked element and the raw template name
      of its nearest enclosing `div.ra-template`, if there is one. */
  datatype Click = Click(classes: set<string>, enclosingTemplate: Option<string>)

  datatype Action = NoAction | EditAction(meta: TemplateMeta) | CreateAction(meta: TemplateMeta)

  /** The click handler of `onAfterRender`: an `edit` element inside a
      template opens the edit flow, otherwise a `create` element inside a
      template opens the create flow; `edit` is tested first, and an `edit`
      element outside a template does nothing. */
  function Dispatch(c: Click): (a: Action)
    ensures a.EditAction? <==> "edit" in c.classes && c.enclosingTemplate.Some?
    ensures a.CreateAction? <==> "edit" !in c.classes && "create" in c.classes && c.enclosingTemplate.Some?
    ensures !a.NoAction? ==> a.meta == TplElMeta(c.enclosingTemplate.value)
  {
    if "edit" in c.classes then
      if c.enclosingTemplate.Some? then EditAction(TplElMeta(c.enclosingTemplate.value)) else NoAction
    else if "create" in c.classes then
      if c.enclosingTemplate.Some? then CreateAction(TplElMeta(c.enclosingTemplate.value)) else NoAction
    else NoAction
  }

  // ---------------------------------------------------------------------------
  // save outcomes
  // ---------------------------------------------------------------------------

  /** The message boxes the plugin shows: the validation-override question
      (closing over the name and content of the failed save) and a plain
      error. */
  datatype Dialog =
    | ConfirmSave(name: string, content: string, errors: string)
    | ErrorBox(message: string)

  /** The failure callback of `setTemplate`: a 418 asks whether to save
      anyway, any other status reports the error. */
  function SaveFailureDialog(name: string, content: string, status: int, text: string): (d: Dialog)
    ensures d.ConfirmSave? <==> status == 418
    ensures d.ConfirmSave? ==> d.name == name && d.content == content && d.errors == text
    ensures d.ErrorBox? ==> d.message == text
  {
    if status == 418 then ConfirmSave(name, content, text) else ErrorBox(text)
  }

  /** The request that answering a message box issues: `yes` to the
      validation question resubmits the same save with `skip_validate`;
      every other answer, and every answer to an error box, issues none. */
  function DialogAnswer(base: string, d: Dialog, button: string): (r: Option<Request>)
    ensures r.Some? <==> d.ConfirmSave? && button == "yes"
    ensures r.Some? ==> r.value == SaveRequest(base, d.name, d.content, true)
  {
    if d.ConfirmSave? && button == "yes" then Some(SaveRequest(base, d.name, d.content, true)) else None
  }

  /** A save that fails validation and is confirmed is resubmitted exactly
      once, to the same URL, with the same content and `skip_validate = 1`;
      a refusal or any other failure resubmits nothing. */
  lemma ValidationOverride(base: string, name: string, content: string, skip: bool,
                                              status: int, text: string, button: string)
    ensures var first := SaveRequest(base, name, content, skip);
      var again := DialogAnswer(base, SaveFailureDialog(first.purpose.name, first.purpose.content, status, text), button);
      && (again.Some? <==> status == 418 && button == "yes")
      && (again.Some? ==>
            && again.value.url == first.url
            && again.value.params == map["content" := content, "skip_validate" := "1"]
            && again.value.purpose == first.purpose)
  {
    var again := DialogAnswer(base, SaveFailureDialog(name, content, status, text), button);
    if again.Some? {
      var p := again.value.params;
      assert p.Keys == {"content", "skip_validate"};
    }
  }

  // ---------------------------------------------------------------------------
  // the plugin object
  // ---------------------------------------------------------------------------

  /** An editor window: its number, and the template name and content it was
      opened with. */
  datatype Window = Window(id: nat, name: string, content: string)

  /** A tab: its number, and its `loadContentCnf` when that is an object. */
  datatype Tab = Tab(id: nat, loadContentCnf: Option<string>)

  /** The tab `tabReload` works on: the one it last created, else the tab
      holding the panel. */
  function ReloadTarget(tab: Option<Tab>, ownerTab: Tab): (t: Tab)
    ensures tab.Some? ==> t == tab.value
    ensures tab.None? ==> t == ownerTab
  {
    if tab.Some? then tab.value else ownerTab
  }

  /** A `TemplateControllerPanel` plugin attached to one panel. */
  class TemplateControllerPanel {
    const baseUrl: string          // panel.template_controller_url
    const ownerTab: Tab            // panel.ownerCt
    const containerCanLoad: bool   // the tab container has a loadContent function
    var tab: Option<Tab>           // this.tab
    var win: Option<Window>        // this.win
    var openWindows: set<nat>
    var nextWindow: nat
    var msg: Option<Dialog>
    var requests: seq<Request>
    var answered: set<nat>
    var removedTabs: seq<Tab>
    var loadedConfigs: seq<string>

    /** At most one editor window is open, and it is `win`; a save request
        or a validation question exists only once an editor was opened. */
    ghost predicate Valid()
      reads this
    {
      && (win.None? ==> openWindows == {})
      && (win.Some? ==> openWindows <= {win.value.id} && win.value.id < nextWindow)
      && (win.None? ==> (msg.None? || msg.value.ErrorBox?))
      && (win.None? ==> forall k :: 0 <= k < |requests| ==> !requests[k].purpose.Save?)
    }

    constructor (baseUrl: string, ownerTab: Tab, containerCanLoad: bool)
      ensures Valid()
      ensures this.baseUrl == baseUrl && this.ownerTab == ownerTab && this.containerCanLoad == containerCanLoad
      ensures tab == None && win == None && msg == None && requests == [] && answered == {}
      ensures removedTabs == [] && loadedConfigs == []
    {
      this.baseUrl := baseUrl;
      this.ownerTab := ownerTab;
      this.containerCanLoad := containerCanLoad;
      tab, win, msg := None, None, None;
      openWindows, nextWindow := {}, 0;
      requests, answered := [], {};
      removedTabs, loadedConfigs := [], [];
    }

    /** `editTemplate(meta)`: ask for the template's content. */
    method EditTemplate(meta: TemplateMeta)
      requires Valid()
      modifies this`requests
      ensures Valid() && requests == old(requests) + [EditRequest(baseUrl, meta.name)]
    {
      var url := RequestUrl(baseUrl, Get, meta.name);
      requests := requests + [Request(GET, url, map[], FetchForEdit(meta.name))];
    }

    /** `createTemplate(meta)`: ask the service to create the template. */
    method CreateTemplate(meta: TemplateMeta)
      requires Valid()
      modifies this`requests
      ensures Valid() && requests == old(requests) + [CreateRequest(baseUrl, meta.name)]
    {
      var url := RequestUrl(baseUrl, Create, meta.name);
      requests := requests + [Request(GET, url, map[], CreateThenEdit(meta.name))];
    }

    /** The click handler installed by `onAfterRender`. */
    method OnClick(c: Click)
      requires Valid()
      modifies this`requests
      ensures Valid()
      ensures requests == old(requests) +
        match Dispatch(c)
        case NoAction => []
        case EditAction(m) => [EditRequest(baseUrl, m.name)]
        case CreateAction(m) => [CreateRequest(baseUrl, m.name)]
    {
      var action := Dispatch(c);
      match action
      case NoAction =>
      case EditAction(m) => EditTemplate(m);
      case CreateAction(m) => CreateTemplate(m);
    }

    /** `setTemplate(name, content, skip_validate)`: post the new content. */
    method SetTemplate(name: string, content: string, skipValidate: bool)
      requires Valid() && win.Some?
      modifies this`requests
      ensures Valid() && requests == old(requests) + [SaveRequest(baseUrl, name, content, skipValidate)]
    {
      var url := RequestUrl(baseUrl, Set, name);
      var params := SaveParams(content, skipValidate);
      requests := requests + [Request(POST, url, params, Save(name, content))];
    }

    /** `loadEditor(name, content)`: close the current editor window, if any,
        then open a new one for this template. */
    method LoadEditor(name: string, content: string)
      requires Valid()
      modifies this`win, this`openWindows, this`nextWindow
      ensures Valid()
      ensures win == Some(Window(old(nextWindow), name, content))
      ensures openWindows == {win.value.id} && nextWindow == old(nextWindow) + 1
      ensures old(win).Some? ==> old(win).value.id !in openWindows
    {
      if win.Some? {
        openWindows := openWindows - {win.value.id};
      }
      win := Some(Window(nextWindow, name, content));
      openWindows := openWindows + {nextWindow};
      nextWindow := nextWindow + 1;
    }

    /** The editor's Cancel button, or its close tool: `this.win.close()`. */
    method CloseEditor()
      requires Valid() && win.Some?
      modifies this`openWindows
      ensures Valid() && openWindows == {}
    {
      openWindows := openWindows - {win.value.id};
    }

    /** The editor's Save button: save what the form now holds under the
        name the window was opened with, validating it. */
    method OnSaveClicked(data: string)
      requires Valid() && win.Some? && win.value.id in openWindows
      modifies this`requests
      ensures Valid() && requests == old(requests) + [SaveRequest(baseUrl, win.value.name, data, false)]
    {
      SetTemplate(win.value.name, data, false);
    }

    /** `tabReload`: when the container can load content and the tab has its
        load configuration, remove the tab and load a new one from that
        configuration (`loaded` is what `loadContent` returns); otherwise
        change nothing. */
    method TabReload(loaded: Tab)
      requires Valid()
      modifies this`tab, this`removedTabs, this`loadedConfigs
      ensures Valid()
      ensures var t := ReloadTarget(old(tab), ownerTab);
        if containerCanLoad && t.loadContentCnf.Some? then
          && removedTabs == old(removedTabs) + [t]
          && loadedConfigs == old(loadedConfigs) + [t.loadContentCnf.value]
          && tab == Some(loaded)
        else
          removedTabs == old(removedTabs) && loadedConfigs == old(loadedConfigs) && tab == old(tab)
    {
      var t := if tab.Some? then tab.value else ownerTab;
      if containerCanLoad && t.loadContentCnf.Some? {
        var cnf := t.loadContentCnf.value;
        removedTabs := removedTabs + [t];
        loadedConfigs := loadedConfigs + [cnf];
        tab := Some(loaded);
      }
    }

    /** The answer to logged request `i` arrives and its callback runs:
        - content fetched for editing opens the editor;
        - a created template reloads the tab, then starts the edit flow;
        - a successful save closes the editor, then reloads the tab;
        - a failed save shows the validation question (418) or an error;
        - a failed fetch or create has no handler and does nothing. */
    method OnResponse(i: nat, response: Response, loaded: Tab)
      requires Valid() && i < |requests| && i !in answered
      modifies this
      ensures Valid() && answered == old(answered) + {i}
      ensures var p := old(requests[i].purpose);
        var opens := p.FetchForEdit? && response.Ok?;
        var closes := p.Save? && response.Ok?;
        && (opens ==>
              && win == Some(Window(old(nextWindow), p.name, response.text))
              && openWindows == {win.value.id} && nextWindow == old(nextWindow) + 1)
        && (!opens ==> win == old(win) && nextWindow == old(nextWindow))
        && (closes ==> openWindows == {})
        && (!opens && !closes ==> openWindows == old(openWindows))
      ensures var p := old(requests[i].purpose);
        && (p.Save? && response.Failed? ==>
              msg == Some(SaveFailureDialog(p.name, p.content, response.status, response.text)))
        && (!(p.Save? && response.Failed?) ==> msg == old(msg))
        && (p.CreateThenEdit? && response.Ok? ==> requests == old(requests) + [EditRequest(baseUrl, p.name)])
        && (!(p.CreateThenEdit? && response.Ok?) ==> requests == old(requests))
      ensures var t := ReloadTarget(old(tab), ownerTab);
        var reloads := response.Ok? && !old(requests[i].purpose).FetchForEdit?
                       && containerCanLoad && t.loadContentCnf.Some?;
        && (reloads ==>
              && tab == Some(loaded) && removedTabs == old(removedTabs) + [t]
              && loadedConfigs == old(loadedConfigs) + [t.loadContentCnf.value])
        && (!reloads ==>
              tab == old(tab) && removedTabs == old(removedTabs) && loadedConfigs == old(loadedConfigs))
    {
      answered := answered + {i};
      var purpose := requests[i].purpose;
      match purpose
      case FetchForEdit(name) =>
        if response.Ok? {
          LoadEditor(name, response.text);
        }
      case CreateThenEdit(name) =>
        if response.Ok? {
          TabReload(loaded);
          EditTemplate(TemplateMeta(name));
        }
      case Save(name, content) =>
        assert win.Some?;
        if response.Ok? {
          CloseEditor();
          TabReload(loaded);
        } else {
          msg := Some(SaveFailureDialog(name, content, response.status, response.text));
        }
    }

    /** The user answers the message box: it closes, and `yes` to the
        validation question calls `setTemplate(name, content, true)`. */
    method OnDialogAnswer(button: string)
      requires Valid() && msg.Some?
      modifies this`msg, this`requests
      ensures Valid() && msg == None
      ensures var again := DialogAnswer(baseUrl, old(msg).value, button);
        requests == old(requests) + (if again.Some? then [again.value] else [])
    {
      var d := msg.value;
      msg := None;
      if d.ConfirmSave? && button == "yes" {
        SetTemplate(d.name, d.content, true);
      }
    }
  }

  /** At most one editor window of a plugin is open at any time. */
  lemma AtMostOneEditor(p: TemplateControllerPanel)
    requires p.Valid()
    ensures |p.openWindows| <= 1
    ensures p.openWindows != {} ==> p.win.Some? && p.openWindows == {p.win.value.id}
  {
    if p.win.Some? {
      var w := p.win.value.id;
      if p.openWindows != {} {
        assert p.openWindows == {w};
      }
    }
  }
}
