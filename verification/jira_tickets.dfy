/**
 * The Jira ticket script: turns the JSON of one issue, as the Jira REST API
 * returns it, into a flat record of eighteen keys, with fixed placeholder
 * records when the request was refused or rate limited. The HTTP request is
 * replaced by its outcome: the status code and the decoded body.
 */
module JiraTickets {
  import opened Json

  /** `fields.get(key, default)` on a dict. */
  function Lookup(fields: map<string, JValue>, key: string, default: JValue): JValue {
    if key in fields then fields[key] else default
  }

  // ---------------------------------------------------------------------------
  // safe_get
  // ---------------------------------------------------------------------------

  /**
   * The value `safe_get(d, path, default)` returns: each step looks the next
   * key up in the current value when it is a dict (falling back to `default`,
   * which the walk then continues from) and stops with `default` as soon as a
   * non-dict is met with keys remaining.
   */
  function PathValue(d: JValue, path: seq<string>, default: JValue): (r: JValue)
    ensures PathPresent(d, path) ==> r == Follow(d, path)
    ensures path != [] && !d.JObj? ==> r == default
    decreases |path|
  {
    if path == [] then d
    else if d.JObj? then
      PathValue(if path[0] in d.fields then d.fields[path[0]] else default, path[1..], default)
    else default
  }

  /** `safe_get`: the loop that walks `path` through nested dicts. */
  method SafeGet(d: JValue, path: seq<string>, default: JValue) returns (r: JValue)
    ensures r == PathValue(d, path, default)
  {
    var current := d;
    var i := 0;
    while i < |path|
      invariant 0 <= i <= |path|
      invariant PathValue(current, path[i..], default) == PathValue(d, path, default)
    {
      assert path[i..][1..] == path[i + 1..];
      if current.JObj? {
        current := if path[i] in current.fields then current.fields[path[i]] else default;
        i := i + 1;
      } else {
        return default;
      }
    }
    assert path[i..] == [];
    return current;
  }

  /** Every key of `path` is found, each in a dict, starting from `d`. */
  predicate PathPresent(d: JValue, path: seq<string>)
    decreases |path|
  {
    path == [] || (d.JObj? && path[0] in d.fields && PathPresent(d.fields[path[0]], path[1..]))
  }

  /** The value at the end of a present path. */
  function Follow(d: JValue, path: seq<string>): JValue
    requires PathPresent(d, path)
    decreases |path|
  {
    if path == [] then d else Follow(d.fields[path[0]], path[1..])
  }

  /** An empty path returns the value itself. */
  lemma SafeGetEmptyPath(d: JValue, default: JValue)
    ensures PathValue(d, [], default) == d
  {
  }

  /**
   * With a default that is not a dict (every call in the script passes a
   * string), `safe_get` is the value at the end of the path when the whole
   * path is present, and the default otherwise.
   */
  lemma {:induction false} SafeGetNonDictDefault(d: JValue, path: seq<string>, default: JValue)
    requires !default.JObj?
    ensures PathValue(d, path, default) ==
            if PathPresent(d, path) then Follow(d, path) else default
    decreases |path|
  {
    if path != [] && d.JObj? {
      if path[0] in d.fields {
        SafeGetNonDictDefault(d.fields[path[0]], path[1..], default);
      } else if path[1..] != [] {
        assert PathValue(default, path[1..], default) == default;
      }
    }
  }

  /**
   * A key that is present but null (an unassigned `assignee`, say) is not a
   * dict, so the walk stops there with the default.
   */
  lemma SafeGetNullIntermediate(d: JValue, key: string, rest: seq<string>, default: JValue)
    requires d.JObj? && key in d.fields && !d.fields[key].JObj?
    requires rest != []
    ensures PathValue(d, [key] + rest, default) == default
  {
    assert ([key] + rest)[1..] == rest;
  }

  // ---------------------------------------------------------------------------
  // The extract_* helpers
  // ---------------------------------------------------------------------------

  /** `[item.get(key, default) for item in items]`: every item must be a dict. */
  function GetEach(items: seq<JValue>, key: string, default: JValue): (r: Result<seq<JValue>>)
    ensures r.Ok? <==> forall i :: 0 <= i < |items| ==> items[i].JObj?
    ensures r.Ok? ==> (|r.value| == |items| &&
              forall i :: 0 <= i < |items| ==>
                r.value[i] == if key in items[i].fields then items[i].fields[key] else default)
    ensures r.Raise? ==> r.error == AttributeError("get")
  {
    if items == [] then Ok([])
    else
      var first :- Get(items[0], key, default);
      var rest :- GetEach(items[1..], key, default);
      Ok([first] + rest)
  }

  /** `extract_reviewer_from_customfield`: reviewer names, or a placeholder when none. */
  function ExtractReviewers(jiraData: JValue): (r: Result<JValue>)
    ensures r.Ok? ==> r.value.JList? && r.value.items != []
    ensures jiraData.JObj? && "fields" !in jiraData.fields ==> r == Raise(KeyError("fields"))
  {
    var fields :- Subscript(jiraData, "fields");
    var reviewers :- Get(fields, "customfield_10048", JList([]));
    if Truthy(reviewers) then
      var items :- Iterate(reviewers);
      var names :- GetEach(items, "displayName", JStr("Reviewer not found"));
      Ok(JList(names))
    else
      Ok(JList([JStr("No reviewer assigned")]))
  }

  /** `extract_components`: one name per component, in order. */
  function ExtractComponents(jiraData: JValue): (r: Result<JValue>)
    ensures r.Ok? ==> r.value.JList?
    ensures jiraData.JObj? && "fields" !in jiraData.fields ==> r == Raise(KeyError("fields"))
    ensures HasFields(jiraData) && "components" !in jiraData.fields["fields"].fields ==> r == Ok(JList([]))
  {
    var fields :- Subscript(jiraData, "fields");
    var components :- Get(fields, "components", JList([]));
    var items :- Iterate(components);
    var names :- GetEach(items, "name", JStr("No component"));
    Ok(JList(names))
  }

  /**
   * One entry of `extract_comments`: the author's display name (default
   * "Unknown author") and the body (default "No comment body"). A comment
   * without an author raises `KeyError`, and an author that is not a dict has
   * no `get`.
   */
  function CommentEntry(comment: JValue): (r: Result<JValue>)
    ensures r.Ok? ==> r.value.JObj? && r.value.fields.Keys == {"author", "body"}
    ensures comment.JObj? && "author" in comment.fields && comment.fields["author"].JObj? ==>
              r == Ok(JObj(map[
                "author" := Lookup(comment.fields["author"].fields, "displayName", JStr("Unknown author")),
                "body" := Lookup(comment.fields, "body", JStr("No comment body"))]))
    ensures comment.JObj? && "author" !in comment.fields ==> r == Raise(KeyError("author"))
    ensures comment.JObj? && "author" in comment.fields && !comment.fields["author"].JObj? ==>
              r == Raise(AttributeError("get"))
  {
    var author :- Subscript(comment, "author");
    var authorName :- Get(author, "displayName", JStr("Unknown author"));
    // `comment` is a dict here: indexing it succeeded.
    var body := Get(comment, "body", JStr("No comment body")).value;
    Ok(JObj(map["author" := authorName, "body" := body]))
  }

  function CommentEntries(comments: seq<JValue>): (r: Result<seq<JValue>>)
    ensures r.Ok? ==> (|r.value| == |comments| &&
              forall i :: 0 <= i < |comments| ==> CommentEntry(comments[i]) == Ok(r.value[i]))
    ensures r.Ok? <==> forall i :: 0 <= i < |comments| ==> CommentEntry(comments[i]).Ok?
  {
    if comments == [] then Ok([])
    else
      var first :- CommentEntry(comments[0]);
      var rest :- CommentEntries(comments[1..]);
      Ok([first] + rest)
  }

  /** `extract_comments`: one author/body entry per comment, in order. */
  function ExtractComments(jiraData: JValue): (r: Result<JValue>)
    ensures r.Ok? ==> (r.value.JList? &&
              forall i :: 0 <= i < |r.value.items| ==>
                r.value.items[i].JObj? && r.value.items[i].fields.Keys == {"author", "body"})
    ensures jiraData.JObj? && "fields" !in jiraData.fields ==> r == Raise(KeyError("fields"))
  {
    var fields :- Subscript(jiraData, "fields");
    var comment :- Get(fields, "comment", JObj(map[]));
    var comments :- Get(comment, "comments", JList([]));
    var items :- Iterate(comments);
    var entries :- CommentEntries(items);
    Ok(JList(entries))
  }

  /** `extract_parent_issue`: key, summary and status of the parent, or `{}` without one. */
  function ExtractParentIssue(jiraData: JValue): (r: Result<JValue>)
    ensures r.Ok? ==> (r.value.JObj? &&
              (r.value.fields == map[] || r.value.fields.Keys == {"key", "summary", "status"}))
    ensures jiraData.JObj? && "fields" !in jiraData.fields ==> r == Raise(KeyError("fields"))
  {
    var fields :- Subscript(jiraData, "fields");
    var parent :- Get(fields, "parent", JNull);
    if Truthy(parent) then
      var key :- Get(parent, "key", JStr(""));
      var parentFields :- Subscript(parent, "fields");
      var summary :- Get(parentFields, "summary", JStr("No summary"));
      var status :- Subscript(parentFields, "status");
      var statusName :- Get(status, "name", JStr("Unknown status"));
      Ok(JObj(map["key" := key, "summary" := summary, "status" := statusName]))
    else
      Ok(JObj(map[]))
  }

  /**
   * The entry for a link through its `side` ("inwardIssue" or "outwardIssue").
   * The relationship is always the link type's `outward` wording.
   */
  function LinkedIssue(link: JValue, side: string): (r: Result<JValue>)
    ensures r.Ok? ==> r.value.JObj? && r.value.fields.Keys == {"key", "summary", "status", "relationship"}
    ensures link.JObj? && side !in link.fields ==> r == Raise(KeyError(side))
  {
    var issue :- Subscript(link, side);
    var key :- Get(issue, "key", JStr(""));
    var issueFields :- Subscript(issue, "fields");
    var summary :- Get(issueFields, "summary", JStr("No summary"));
    var status :- Subscript(issueFields, "status");
    var statusName :- Get(status, "name", JStr("Unknown status"));
    var linkType :- Subscript(link, "type");
    var relationship :- Get(linkType, "outward", JStr("Unknown relation"));
    Ok(JObj(map["key" := key, "summary" := summary, "status" := statusName, "relationship" := relationship]))
  }

  /** The entry for one issue link: inward first, then outward, else `{}`. */
  function RelatedIssue(link: JValue): (r: Result<JValue>)
    ensures r.Ok? ==> (r.value.JObj? &&
              (r.value.fields == map[] || r.value.fields.Keys == {"key", "summary", "status", "relationship"}))
    ensures r.Ok? && r.value.fields != map[] ==>
              link.JObj? && ("inwardIssue" in link.fields || "outwardIssue" in link.fields)
  {
    var inward :- Contains(link, "inwardIssue");
    if inward then LinkedIssue(link, "inwardIssue")
    else
      // `link` supports `in`: the first test succeeded.
      var outward := Contains(link, "outwardIssue").value;
      if outward then LinkedIssue(link, "outwardIssue") else Ok(JObj(map[]))
  }

  function RelatedIssueEntries(links: seq<JValue>): (r: Result<seq<JValue>>)
    ensures r.Ok? ==> (|r.value| == |links| &&
              forall i :: 0 <= i < |links| ==> RelatedIssue(links[i]) == Ok(r.value[i]))
    ensures r.Ok? <==> forall i :: 0 <= i < |links| ==> RelatedIssue(links[i]).Ok?
  {
    if links == [] then Ok([])
    else
      var first :- RelatedIssue(links[0]);
      var rest :- RelatedIssueEntries(links[1..]);
      Ok([first] + rest)
  }

  /** What `extract_related_issues` returns for an issue. */
  function RelatedIssues(jiraData: JValue): Result<JValue> {
    var fields :- Subscript(jiraData, "fields");
    var issueLinks :- Get(fields, "issuelinks", JList([]));
    var links :- Iterate(issueLinks);
    var entries :- RelatedIssueEntries(links);
    Ok(JList(entries))
  }

  /** `extract_related_issues`: the loop that appends one entry per link. */
  method ExtractRelatedIssues(jiraData: JValue) returns (r: Result<JValue>)
    ensures r == RelatedIssues(jiraData)
  {
    var fields :- Subscript(jiraData, "fields");
    var issueLinks :- Get(fields, "issuelinks", JList([]));
    var links :- Iterate(issueLinks);
    var related: seq<JValue> := [];
    for i := 0 to |links|
      invariant |related| == i
      invariant forall j :: 0 <= j < i ==> RelatedIssue(links[j]) == Ok(related[j])
    {
      var relation := RelatedIssue(links[i]);
      if relation.Raise? {
        RelatedEntriesFirstFailure(links, i);
        return Raise(relation.error);
      }
      related := related + [relation.value];
    }
    RelatedEntriesAgree(links, related);
    return Ok(JList(related));
  }

  /** A list of entries that agrees with every link is the one the comprehension builds. */
  lemma {:induction false} RelatedEntriesAgree(links: seq<JValue>, related: seq<JValue>)
    requires |related| == |links|
    requires forall j :: 0 <= j < |links| ==> RelatedIssue(links[j]) == Ok(related[j])
    ensures RelatedIssueEntries(links) == Ok(related)
  {
    if links != [] {
      assert RelatedIssue(links[0]) == Ok(related[0]);
      forall j | 0 <= j < |links| - 1
        ensures RelatedIssue(links[1..][j]) == Ok(related[1..][j])
      {
        assert links[1..][j] == links[j + 1] && related[1..][j] == related[j + 1];
      }
      RelatedEntriesAgree(links[1..], related[1..]);
      assert related == [related[0]] + related[1..];
    }
  }

  /** The comprehension raises the exception of the first link that raises. */
  lemma {:induction false} RelatedEntriesFirstFailure(links: seq<JValue>, i: nat)
    requires i < |links| && RelatedIssue(links[i]).Raise?
    requires forall j :: 0 <= j < i ==> RelatedIssue(links[j]).Ok?
    ensures RelatedIssueEntries(links) == Raise(RelatedIssue(links[i]).error)
  {
    if i > 0 {
      RelatedEntriesFirstFailure(links[1..], i - 1);
    }
  }

  /** One attachment as the record lists it: its file name and its download link. */
  function AttachmentEntries(attachments: seq<JValue>): (r: Result<seq<JValue>>)
    ensures r.Ok? <==> forall i :: 0 <= i < |attachments| ==> attachments[i].JObj?
    ensures r.Ok? ==> |r.value| == |attachments|
    ensures r.Ok? ==> forall i :: 0 <= i < |attachments| ==>
              r.value[i] == JObj(map[
                "filename" := Lookup(attachments[i].fields, "filename", JStr("")),
                "url" := Lookup(attachments[i].fields, "content", JStr(""))])
    ensures r.Raise? ==> r.error == AttributeError("get")
  {
    if attachments == [] then Ok([])
    else
      var filename :- Get(attachments[0], "filename", JStr(""));
      var url := Get(attachments[0], "content", JStr("")).value;
      var rest :- AttachmentEntries(attachments[1..]);
      Ok([JObj(map["filename" := filename, "url" := url])] + rest)
  }

  // ---------------------------------------------------------------------------
  // reformat_jira_data, get_jira_issue, fetch_ticket
  // ---------------------------------------------------------------------------

  /** The eighteen keys of every record. */
  const RecordKeys: set<string> := {
    "key", "summary", "description", "status", "assignee", "reviewers", "reporter",
    "created", "updated", "resolution", "labels", "attachments", "comments",
    "parent_issue", "related_issues", "components", "team", "project"
  }

  /** A record, its eighteen fields given in the order the script writes them. */
  function Record(key: JValue, summary: JValue, description: JValue, status: JValue,
                  assignee: JValue, reviewers: JValue, reporter: JValue, created: JValue,
                  updated: JValue, resolution: JValue, labels: JValue, attachments: JValue,
                  comments: JValue, parentIssue: JValue, relatedIssues: JValue,
                  components: JValue, team: JValue, project: JValue): (r: JValue)
    ensures r.JObj? && r.fields.Keys == RecordKeys
    ensures r.fields["key"] == key && r.fields["summary"] == summary
    ensures r.fields["description"] == description
  {
    JObj(map k | k in RecordKeys ::
      if k == "key" then key
      else if k == "summary" then summary
      else if k == "description" then description
      else if k == "status" then status
      else if k == "assignee" then assignee
      else if k == "reviewers" then reviewers
      else if k == "reporter" then reporter
      else if k == "created" then created
      else if k == "updated" then updated
      else if k == "resolution" then resolution
      else if k == "labels" then labels
      else if k == "attachments" then attachments
      else if k == "comments" then comments
      else if k == "parent_issue" then parentIssue
      else if k == "related_issues" then relatedIssues
      else if k == "components" then components
      else if k == "team" then team
      else project)
  }

  /** The record's fields from `status` to `resolution` hold the values given for them. */
  lemma RecordFieldsMiddle(
      key: JValue, summary: JValue, description: JValue, status: JValue,
      assignee: JValue, reviewers: JValue, reporter: JValue, created: JValue,
      updated: JValue, resolution: JValue, labels: JValue, attachments: JValue,
      comments: JValue, parentIssue: JValue, relatedIssues: JValue,
      components: JValue, team: JValue, project: JValue)
    ensures var m := Record(key, summary, description, status, assignee, reviewers, reporter, created,
                  updated, resolution, labels, attachments, comments, parentIssue,
                  relatedIssues, components, team, project).fields;
            && m["status"] == status && m["assignee"] == assignee && m["reviewers"] == reviewers
            && m["reporter"] == reporter && m["created"] == created && m["updated"] == updated
            && m["resolution"] == resolution
  {
  }

  /** The record's fields from `labels` to `parent_issue` hold the values given for them. */
  lemma RecordFieldsLists(
      key: JValue, summary: JValue, description: JValue, status: JValue,
      assignee: JValue, reviewers: JValue, reporter: JValue, created: JValue,
      updated: JValue, resolution: JValue, labels: JValue, attachments: JValue,
      comments: JValue, parentIssue: JValue, relatedIssues: JValue,
      components: JValue, team: JValue, project: JValue)
    ensures var m := Record(key, summary, description, status, assignee, reviewers, reporter, created,
                  updated, resolution, labels, attachments, comments, parentIssue,
                  relatedIssues, components, team, project).fields;
            && m["labels"] == labels && m["attachments"] == attachments && m["comments"] == comments
            && m["parent_issue"] == parentIssue
  {
  }

  /** The record's fields from `related_issues` to `project` hold the values given for them. */
  lemma RecordFieldsLast(
      key: JValue, summary: JValue, description: JValue, status: JValue,
      assignee: JValue, reviewers: JValue, reporter: JValue, created: JValue,
      updated: JValue, resolution: JValue, labels: JValue, attachments: JValue,
      comments: JValue, parentIssue: JValue, relatedIssues: JValue,
      components: JValue, team: JValue, project: JValue)
    ensures var m := Record(key, summary, description, status, assignee, reviewers, reporter, created,
                  updated, resolution, labels, attachments, comments, parentIssue,
                  relatedIssues, components, team, project).fields;
            && m["related_issues"] == relatedIssues && m["components"] == components
            && m["team"] == team && m["project"] == project
  {
  }

  /** The fixed record used when there is no data; only the key and two texts vary. */
  function PlaceholderRecord(ticket: string, summary: string, description: string): JValue {
    Record(JStr(ticket), JStr(summary), JStr(description), JStr("Unknown"), JStr("Unassigned"),
           JList([JStr("No reviewer assigned")]), JStr("Unknown"), JStr("N/A"), JStr("N/A"),
           JStr("Unresolved"), JList([]), JList([]),
           JList([JObj(map["author" := JStr("Unknown"), "body" := JStr("No comments")])]),
           JNull, JList([]), JList([JStr("No components")]), JStr("No team"), JStr("No project"))
  }

  /** The record for a refused request or a missing body. */
  function UnauthorizedRecord(ticket: string): JValue {
    PlaceholderRecord(ticket, "No data available", "Unauthorized or no data available")
  }

  /** The record for a rate-limited request. */
  function RateLimitRecord(ticket: string): JValue {
    PlaceholderRecord(ticket, "No data available because of JIRA rate limits",
                      "No data available because of JIRA rate limits")
  }

  /**
   * `reformat_jira_data`: `None` gives the unauthorized record, `[]` the rate
   * limit record, and anything else is read as an issue, field by field in
   * the record's order (so the first missing required part raises).
   */
  function Reformat(jiraData: JValue, ticket: string): (r: Result<JValue>)
    ensures r.Ok? ==> r.value.JObj? && r.value.fields.Keys == RecordKeys
    ensures jiraData != JNull && jiraData != JList([]) && !jiraData.JObj? ==>
              r == Raise(AttributeError("get"))
    ensures jiraData.JObj? && "fields" !in jiraData.fields ==> r == Raise(KeyError("fields"))
  {
    if jiraData == JNull then Ok(UnauthorizedRecord(ticket))
    else if jiraData == JList([]) then Ok(RateLimitRecord(ticket))
    else
      var key :- Get(jiraData, "key", JStr(""));
      var fields :- Subscript(jiraData, "fields");
      if !fields.JObj? then Raise(AttributeError("get"))
      else
      var summary := Lookup(fields.fields, "summary", JStr(""));
      var description := Lookup(fields.fields, "description", JStr(""));
      var status :- Subscript(fields, "status");
      var statusName :- Get(status, "name", JStr("Unknown"));
      var assignee := PathValue(fields, ["assignee", "displayName"], JStr("Unassigned"));
      var reviewers :- ExtractReviewers(jiraData);
      var reporter := PathValue(fields, ["reporter", "displayName"], JStr("Unknown"));
      var created := Lookup(fields.fields, "created", JStr(""));
      var updated := Lookup(fields.fields, "updated", JStr(""));
      var resolution := PathValue(fields, ["resolution", "name"], JStr("Unresolved"));
      var labels := Lookup(fields.fields, "labels", JList([]));
      var attachmentItems :- Iterate(Lookup(fields.fields, "attachment", JList([])));
      var attachments :- AttachmentEntries(attachmentItems);
      var comments :- ExtractComments(jiraData);
      var parentIssue :- ExtractParentIssue(jiraData);
      var relatedIssues :- RelatedIssues(jiraData);
      var components :- ExtractComponents(jiraData);
      var team := PathValue(fields, ["customfield_10056", "value"], JStr("No team"));
      var project := PathValue(fields, ["project", "name"], JStr("No project"));
      Ok(Record(key, summary, description, statusName, assignee, reviewers, reporter, created,
                updated, resolution, labels, JList(attachments), comments, parentIssue,
                relatedIssues, components, team, project))
  }

  /** What `get_jira_issue` returns: the data (JSON `null` for `None`) and an error message. */
  datatype IssueResponse = IssueResponse(data: JValue, error: Option<string>)

  /**
   * `get_jira_issue` after the request: 200 passes the body on, 429 gives an
   * empty list, any other status no data; both failures report the status.
   */
  function GetJiraIssue(issueName: string, statusCode: nat, body: JValue): (r: IssueResponse)
    ensures r.error.None? <==> statusCode == 200
    ensures statusCode == 200 ==> r.data == body
  {
    if statusCode == 200 then IssueResponse(body, None)
    else if statusCode == 429 then IssueResponse(JList([]), Some(issueName + ": " + DecimalString(statusCode)))
    else IssueResponse(JNull, Some(issueName + ": " + DecimalString(statusCode)))
  }

  /** `fetch_ticket`: the reformatted record and the request's error message. */
  function FetchTicket(ticket: string, statusCode: nat, body: JValue): (r: (Result<JValue>, Option<string>))
    ensures r.1.None? <==> statusCode == 200
    ensures statusCode != 200 ==> r.0.Ok? && r.0.value.JObj? && r.0.value.fields.Keys == RecordKeys
    ensures statusCode == 200 ==> r.0 == Reformat(body, ticket)
  {
    var response := GetJiraIssue(ticket, statusCode, body);
    (Reformat(response.data, ticket), response.error)
  }

  // ---------------------------------------------------------------------------
  // Properties
  // ---------------------------------------------------------------------------

  /** Status mapping: 200 is a success, 429 and every other status report `issue: status`. */
  lemma StatusMapping(issueName: string, statusCode: nat, body: JValue)
    ensures statusCode == 200 ==> GetJiraIssue(issueName, statusCode, body) == IssueResponse(body, None)
    ensures statusCode == 429 ==>
              GetJiraIssue(issueName, statusCode, body) == IssueResponse(JList([]), Some(issueName + ": 429"))
    ensures statusCode != 200 && statusCode != 429 ==>
              GetJiraIssue(issueName, statusCode, body).data == JNull
    ensures statusCode != 200 ==>
              GetJiraIssue(issueName, statusCode, body).error == Some(issueName + ": " + DecimalString(statusCode))
  {
    if statusCode == 429 {
      assert DecimalString(4) == "4";
      assert DecimalString(42) == "4" + "2";
      assert DecimalString(429) == "42" + "9";
      assert issueName + ": " + DecimalString(statusCode) == issueName + ": 429";
    }
  }

  /** A placeholder record has exactly the record's eighteen keys. */
  lemma PlaceholderKeys(ticket: string, summary: string, description: string)
    ensures PlaceholderRecord(ticket, summary, description).fields.Keys == RecordKeys
  {
  }

  /** A placeholder record carries the ticket as its key and the two given texts. */
  lemma PlaceholderTexts(ticket: string, summary: string, description: string)
    ensures PlaceholderRecord(ticket, summary, description).fields["key"] == JStr(ticket)
    ensures PlaceholderRecord(ticket, summary, description).fields["summary"] == JStr(summary)
    ensures PlaceholderRecord(ticket, summary, description).fields["description"] == JStr(description)
  {
  }

  /** `None` gives the unauthorized record and `[]` the rate-limit record, both keyed by the ticket. */
  lemma PlaceholderRecords(ticket: string)
    ensures Reformat(JNull, ticket) == Ok(UnauthorizedRecord(ticket))
    ensures Reformat(JList([]), ticket) == Ok(RateLimitRecord(ticket))
    ensures UnauthorizedRecord(ticket).fields.Keys == RecordKeys
    ensures RateLimitRecord(ticket).fields.Keys == RecordKeys
    ensures UnauthorizedRecord(ticket).fields["description"] == JStr("Unauthorized or no data available")
    ensures RateLimitRecord(ticket).fields["summary"] == JStr("No data available because of JIRA rate limits")
  {
    PlaceholderKeys(ticket, "No data available", "Unauthorized or no data available");
    PlaceholderTexts(ticket, "No data available", "Unauthorized or no data available");
    PlaceholderKeys(ticket, "No data available because of JIRA rate limits",
                    "No data available because of JIRA rate limits");
    PlaceholderTexts(ticket, "No data available because of JIRA rate limits",
                     "No data available because of JIRA rate limits");
  }

  /** A rate-limited fetch yields the rate-limit record; any other failed status the unauthorized one. */
  lemma FetchTicketFailures(ticket: string, statusCode: nat, body: JValue)
    ensures statusCode == 429 ==>
              FetchTicket(ticket, statusCode, body) == (Ok(RateLimitRecord(ticket)), Some(ticket + ": 429"))
    ensures statusCode != 200 && statusCode != 429 ==>
              FetchTicket(ticket, statusCode, body).0 == Ok(UnauthorizedRecord(ticket))
  {
    StatusMapping(ticket, statusCode, body);
  }

  /** The issue's `fields` dict, when the issue has one. */
  predicate HasFields(jiraData: JValue) {
    jiraData.JObj? && "fields" in jiraData.fields && jiraData.fields["fields"].JObj?
  }

  /**
   * Reviewers: a missing or empty (falsy) field gives the placeholder list; a
   * list of reviewer dicts gives one display name each, in order, with a
   * default for a reviewer without one.
   */
  lemma ReviewersShape(jiraData: JValue)
    requires HasFields(jiraData)
    ensures var f := jiraData.fields["fields"].fields;
            ("customfield_10048" !in f || !Truthy(f["customfield_10048"])) ==>
              ExtractReviewers(jiraData) == Ok(JList([JStr("No reviewer assigned")]))
    ensures var f := jiraData.fields["fields"].fields;
            "customfield_10048" in f && f["customfield_10048"].JList? && f["customfield_10048"].items != [] &&
            (forall i :: 0 <= i < |f["customfield_10048"].items| ==> f["customfield_10048"].items[i].JObj?) ==>
              var items := f["customfield_10048"].items;
              && ExtractReviewers(jiraData).Ok?
              && ExtractReviewers(jiraData).value.JList?
              && |ExtractReviewers(jiraData).value.items| == |items|
              && forall i :: 0 <= i < |items| ==>
                   ExtractReviewers(jiraData).value.items[i] ==
                   if "displayName" in items[i].fields then items[i].fields["displayName"]
                   else JStr("Reviewer not found")
  {
  }

  /** Components: one name per component dict, in order, defaulting to "No component". */
  lemma ComponentsShape(jiraData: JValue)
    requires HasFields(jiraData)
    ensures var f := jiraData.fields["fields"].fields;
            "components" !in f ==> ExtractComponents(jiraData) == Ok(JList([]))
    ensures var f := jiraData.fields["fields"].fields;
            "components" in f && f["components"].JList? &&
            (forall i :: 0 <= i < |f["components"].items| ==> f["components"].items[i].JObj?) ==>
              var items := f["components"].items;
              && ExtractComponents(jiraData).Ok?
              && ExtractComponents(jiraData).value.JList?
              && |ExtractComponents(jiraData).value.items| == |items|
              && forall i :: 0 <= i < |items| ==>
                   ExtractComponents(jiraData).value.items[i] ==
                   if "name" in items[i].fields then items[i].fields["name"] else JStr("No component")
  {
  }

  /** Comments: one entry per comment, in order; without a comment field the list is empty. */
  lemma CommentsShape(jiraData: JValue)
    requires HasFields(jiraData)
    ensures "comment" !in jiraData.fields["fields"].fields ==> ExtractComments(jiraData) == Ok(JList([]))
    ensures ExtractComments(jiraData).Ok? && "comment" in jiraData.fields["fields"].fields ==>
              var comments := Get(jiraData.fields["fields"].fields["comment"], "comments", JList([])).value;
              && ExtractComments(jiraData).value.JList?
              && Iterate(comments).Ok?
              && |ExtractComments(jiraData).value.items| == |Iterate(comments).value|
              && forall i :: 0 <= i < |Iterate(comments).value| ==>
                   CommentEntry(Iterate(comments).value[i]) == Ok(ExtractComments(jiraData).value.items[i])
  {
  }

  /**
   * A parent dict gives its key (default ""), its summary (default "No
   * summary") and its status name (default "Unknown status").
   */
  lemma ParentValues(jiraData: JValue)
    requires HasFields(jiraData)
    requires var f := jiraData.fields["fields"].fields;
             && "parent" in f && f["parent"].JObj?
             && "fields" in f["parent"].fields && f["parent"].fields["fields"].JObj?
             && "status" in f["parent"].fields["fields"].fields
             && f["parent"].fields["fields"].fields["status"].JObj?
    ensures var p := jiraData.fields["fields"].fields["parent"].fields;
            var pf := p["fields"].fields;
            ExtractParentIssue(jiraData) == Ok(JObj(map[
              "key" := Lookup(p, "key", JStr("")),
              "summary" := Lookup(pf, "summary", JStr("No summary")),
              "status" := Lookup(pf["status"].fields, "name", JStr("Unknown status"))]))
  {
  }

  /**
   * The entry for a link read through `side`: the linked issue's key (default
   * ""), summary (default "No summary") and status name (default "Unknown
   * status"), and the link type's outward wording (default "Unknown relation").
   */
  lemma LinkedValues(link: JValue, side: string)
    requires link.JObj? && side in link.fields && link.fields[side].JObj?
    requires var issue := link.fields[side].fields;
             && "fields" in issue && issue["fields"].JObj?
             && "status" in issue["fields"].fields && issue["fields"].fields["status"].JObj?
    requires "type" in link.fields && link.fields["type"].JObj?
    ensures var issue := link.fields[side].fields;
            var issueFields := issue["fields"].fields;
            LinkedIssue(link, side) == Ok(JObj(map[
              "key" := Lookup(issue, "key", JStr("")),
              "summary" := Lookup(issueFields, "summary", JStr("No summary")),
              "status" := Lookup(issueFields["status"].fields, "name", JStr("Unknown status")),
              "relationship" := Lookup(link.fields["type"].fields, "outward", JStr("Unknown relation"))]))
  {
  }

  /**
   * The values of a record built from an issue: each key is read from its
   * own place in the issue, with its own default, or is the result of its
   * extractor.
   */
  lemma ReformatValues(jiraData: JValue, ticket: string)
    requires HasFields(jiraData) && Reformat(jiraData, ticket).Ok?
    ensures var f := jiraData.fields["fields"].fields;
            && "status" in f && f["status"].JObj?
            && ExtractReviewers(jiraData).Ok? && ExtractComments(jiraData).Ok?
            && ExtractParentIssue(jiraData).Ok? && RelatedIssues(jiraData).Ok?
            && ExtractComponents(jiraData).Ok?
            && Iterate(Lookup(f, "attachment", JList([]))).Ok?
            && AttachmentEntries(Iterate(Lookup(f, "attachment", JList([]))).value).Ok?
    ensures var f := jiraData.fields["fields"];
            var m := Reformat(jiraData, ticket).value.fields;
            && m["key"] == Lookup(jiraData.fields, "key", JStr(""))
            && m["summary"] == Lookup(f.fields, "summary", JStr(""))
            && m["description"] == Lookup(f.fields, "description", JStr(""))
            && m["status"] == Lookup(f.fields["status"].fields, "name", JStr("Unknown"))
            && m["assignee"] == PathValue(f, ["assignee", "displayName"], JStr("Unassigned"))
            && m["reviewers"] == ExtractReviewers(jiraData).value
            && m["reporter"] == PathValue(f, ["reporter", "displayName"], JStr("Unknown"))
            && m["created"] == Lookup(f.fields, "created", JStr(""))
            && m["updated"] == Lookup(f.fields, "updated", JStr(""))
            && m["resolution"] == PathValue(f, ["resolution", "name"], JStr("Unresolved"))
            && m["labels"] == Lookup(f.fields, "labels", JList([]))
            && m["attachments"] ==
               JList(AttachmentEntries(Iterate(Lookup(f.fields, "attachment", JList([]))).value).value)
            && m["comments"] == ExtractComments(jiraData).value
            && m["parent_issue"] == ExtractParentIssue(jiraData).value
            && m["related_issues"] == RelatedIssues(jiraData).value
            && m["components"] == ExtractComponents(jiraData).value
            && m["team"] == PathValue(f, ["customfield_10056", "value"], JStr("No team"))
            && m["project"] == PathValue(f, ["project", "name"], JStr("No project"))
  {
    var f := jiraData.fields["fields"];
    var attachmentItems := Iterate(Lookup(f.fields, "attachment", JList([]))).value;
    var key, summary, description, status, assignee, reviewers, reporter, created,
        updated, resolution, labels, attachments, comments, parentIssue,
        relatedIssues, components, team, project :=
      Lookup(jiraData.fields, "key", JStr("")), Lookup(f.fields, "summary", JStr("")),
      Lookup(f.fields, "description", JStr("")),
      Lookup(f.fields["status"].fields, "name", JStr("Unknown")),
      PathValue(f, ["assignee", "displayName"], JStr("Unassigned")),
      ExtractReviewers(jiraData).value,
      PathValue(f, ["reporter", "displayName"], JStr("Unknown")),
      Lookup(f.fields, "created", JStr("")), Lookup(f.fields, "updated", JStr("")),
      PathValue(f, ["resolution", "name"], JStr("Unresolved")),
      Lookup(f.fields, "labels", JList([])),
      JList(AttachmentEntries(attachmentItems).value),
      ExtractComments(jiraData).value, ExtractParentIssue(jiraData).value,
      RelatedIssues(jiraData).value, ExtractComponents(jiraData).value,
      PathValue(f, ["customfield_10056", "value"], JStr("No team")),
      PathValue(f, ["project", "name"], JStr("No project"));
    assert Reformat(jiraData, ticket) == Ok(Record(key, summary, description, status, assignee, reviewers, reporter, created,
                  updated, resolution, labels, attachments, comments, parentIssue,
                  relatedIssues, components, team, project));
    RecordFieldsMiddle(key, summary, description, status, assignee, reviewers, reporter, created,
                  updated, resolution, labels, attachments, comments, parentIssue,
                  relatedIssues, components, team, project);
    RecordFieldsLists(key, summary, description, status, assignee, reviewers, reporter, created,
                  updated, resolution, labels, attachments, comments, parentIssue,
                  relatedIssues, components, team, project);
    RecordFieldsLast(key, summary, description, status, assignee, reviewers, reporter, created,
                  updated, resolution, labels, attachments, comments, parentIssue,
                  relatedIssues, components, team, project);
  }

  /** A missing or falsy parent gives `{}`. */
  lemma NoParentGivesEmpty(jiraData: JValue)
    requires HasFields(jiraData)
    requires "parent" !in jiraData.fields["fields"].fields ||
             !Truthy(jiraData.fields["fields"].fields["parent"])
    ensures ExtractParentIssue(jiraData) == Ok(JObj(map[]))
  {
  }

  /** A link dict with neither an inward nor an outward issue gives `{}`. */
  lemma UnlinkedGivesEmpty(link: JValue)
    requires link.JObj? && "inwardIssue" !in link.fields && "outwardIssue" !in link.fields
    ensures RelatedIssue(link) == Ok(JObj(map[]))
  {
  }

  /**
   * A link's relationship is the link type's `outward` wording, for inward
   * links as well as outward ones.
   */
  lemma RelationshipIsOutward(link: JValue)
    requires RelatedIssue(link).Ok? && RelatedIssue(link).value != JObj(map[])
    ensures link.JObj? && ("inwardIssue" in link.fields || "outwardIssue" in link.fields)
    ensures "type" in link.fields && link.fields["type"].JObj?
    ensures RelatedIssue(link).value.JObj? && "relationship" in RelatedIssue(link).value.fields
    ensures RelatedIssue(link).value.fields["relationship"] ==
            Get(link.fields["type"], "outward", JStr("Unknown relation")).value
  {
  }
}
