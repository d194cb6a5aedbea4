/** The webhook-maintenance client `BondoraApplication`: it signs into the marketplace's web
    interface, scrapes the application's webhook table, and pings (resets) every webhook that has
    failed too often. The HTML and the HTTP session are not modelled: the login answer is a status
    code and the rows of the page's webhook table, and a ping POST either returns or raises. */
module Webhooks {
  import opened Wrappers
  import opened PyText

  /** A `<td>` cell: its text, and the `data-id` attribute of the first `<form>` inside it (None
      when the cell has no form or the form has no such attribute). */
  datatype Cell = Cell(text: string, formId: Option<string>)

  /** A `<tr>` row: the texts of its `<th>` cells and its `<td>` cells. */
  datatype Row = Row(headers: seq<string>, cells: seq<Cell>)

  /** The answer to the login POST: its status code, and the rows of the page's
      `table table-striped` (None when the page has no such table). */
  datatype Page = Page(status: int, table: Option<seq<Row>>)

  /** One scraped webhook: `name`, `n_failures` and `button_id`. */
  datatype Webhook = Webhook(name: string, failures: int, buttonId: string)

  /** A POST sent through the application's session: the login form, or the "send test" button
      of one webhook, which resets its failure count. */
  datatype Request =
    | Login(url: string, userName: string, password: string, returnUrl: string)
    | Ping(urlButton: string, buttonId: string)
  {
    /** The URL the request is posted to. */
    function Url(): string {
      match this
      case Login(url, _, _, _) => url
      case Ping(urlButton, buttonId) => urlButton + "/" + buttonId
    }
  }

  const StatusOk := 200
  const DefaultThreshold := 10

  // ---------------------------------------------------------------- reading the table

  /** The position of the last header whose stripped text is `title`: the header loop assigns
      the position each time the title appears, so a later duplicate wins. */
  function ColumnIndex(headers: seq<string>, title: string): Option<nat> {
    if headers == [] then None
    else if Strip(headers[|headers| - 1]) == title then Some(|headers| - 1)
    else ColumnIndex(headers[..|headers| - 1], title)
  }

  /** The position found is that of the last header reading `title`, and there is none exactly
      when no header reads `title`. */
  lemma {:induction false} ColumnIndexMeaning(headers: seq<string>, title: string)
    ensures var r := ColumnIndex(headers, title);
      && (r.Some? ==> r.value < |headers| && Strip(headers[r.value]) == title)
      && (r.Some? ==> forall j :: r.value < j < |headers| ==> Strip(headers[j]) != title)
      && (r.None? <==> forall j :: 0 <= j < |headers| ==> Strip(headers[j]) != title)
  {
    if headers != [] && Strip(headers[|headers| - 1]) != title {
      var init := headers[..|headers| - 1];
      ColumnIndexMeaning(init, title);
      assert forall j :: 0 <= j < |init| ==> init[j] == headers[j];
    }
  }

  /** Scanning one more header either finds the title there or leaves the position as it was. */
  lemma ColumnIndexStep(headers: seq<string>, k: nat, title: string)
    requires k < |headers|
    ensures ColumnIndex(headers[..k + 1], title)
      == if Strip(headers[k]) == title then Some(k) else ColumnIndex(headers[..k], title)
  {
    assert headers[..k + 1][..k] == headers[..k];
  }

  /** The three titles the header loop looks for are distinct, so a header matches at most one. */
  lemma TitlesDistinct()
    ensures "Name" != "Failures" && "Name" != "Info" && "Failures" != "Info"
  {
    assert |"Name"| != |"Failures"| && |"Info"| != |"Failures"|;
    assert "Name"[0] != "Info"[0];
  }

  /** The column positions the header loop leaves behind; None for a position never assigned
      (its variable stays unbound, and reading it raises). */
  datatype Columns = Columns(name: Option<nat>, failures: Option<nat>, button: Option<nat>)

  /** `Name` and `Failures` are read where their headers are; the button sits in the cell after
      the `Info` header. */
  function ColumnsOf(headers: seq<string>): Columns {
    Columns(ColumnIndex(headers, "Name"), ColumnIndex(headers, "Failures"),
            match ColumnIndex(headers, "Info") case Some(i) => Some(i + 1) case None => None)
  }

  /** `columns[index]`, None for an unbound index or the IndexError of one past the end. */
  function CellAt(cells: seq<Cell>, index: Option<nat>): Option<Cell> {
    if index.Some? && index.value < |cells| then Some(cells[index.value]) else None
  }

  /** The record one data row yields, None when reading it raises: a missing cell, a failure
      count `int()` rejects, or a button cell without a form id. */
  function ParseRow(row: Row, columns: Columns): Option<Webhook> {
    var name :- CellAt(row.cells, columns.name);
    var failures :- CellAt(row.cells, columns.failures);
    var count :- ParseInt(Strip(failures.text));
    var button :- CellAt(row.cells, columns.button);
    var id :- button.formId;
    Some(Webhook(Strip(name.text), count, id))
  }

  /** Reads every element in order; None as soon as one read fails (the exception that
      abandons the loop). */
  function ReadAll<T, U>(xs: seq<T>, read: T -> Option<U>): Option<seq<U>> {
    if xs == [] then Some([])
    else
      var k := |xs| - 1;
      var init :- ReadAll(xs[..k], read);
      var last :- read(xs[k]);
      Some(init + [last])
  }

  /** Reading all succeeds exactly when every single read does, and then yields one result per
      element, in order. */
  lemma {:induction false} ReadAllMeaning<T, U>(xs: seq<T>, read: T -> Option<U>)
    ensures ReadAll(xs, read).Some? <==> forall i :: 0 <= i < |xs| ==> read(xs[i]).Some?
    ensures ReadAll(xs, read).Some? ==>
      && |ReadAll(xs, read).value| == |xs|
      && forall i :: 0 <= i < |xs| ==> read(xs[i]) == Some(ReadAll(xs, read).value[i])
  {
    if xs != [] {
      var k := |xs| - 1;
      ReadAllMeaning(xs[..k], read);
      assert forall i :: 0 <= i < k ==> xs[..k][i] == xs[i];
    }
  }

  /** The records of the data rows in row order; None as soon as one row raises. */
  function ParseRows(rows: seq<Row>, columns: Columns): Option<seq<Webhook>> {
    ReadAll(rows, (row: Row) => ParseRow(row, columns))
  }

  /** Reading the whole table: the first row holds the headers, every further row one webhook.
      None when there is no table or no row at all, or a data row raises. */
  function ParseTable(table: Option<seq<Row>>): Option<seq<Webhook>> {
    var rows :- table;
    if rows == [] then None
    else ParseRows(rows[1..], ColumnsOf(rows[0].headers))
  }

  /** The scrape succeeds exactly when every data row can be read, and then yields one record
      per row, in row order. */
  lemma ParseRowsMeaning(rows: seq<Row>, columns: Columns)
    ensures ParseRows(rows, columns).Some? <==>
      forall i :: 0 <= i < |rows| ==> ParseRow(rows[i], columns).Some?
    ensures ParseRows(rows, columns).Some? ==>
      && |ParseRows(rows, columns).value| == |rows|
      && forall i :: 0 <= i < |rows| ==> ParseRow(rows[i], columns) == Some(ParseRows(rows, columns).value[i])
  {
    ReadAllMeaning(rows, (row: Row) => ParseRow(row, columns));
  }

  /** The header loop of get_webhooks: one pass over the header texts, recording the position
      of each title it meets. */
  method FindColumns(ths: seq<string>) returns (columns: Columns)
    ensures columns == ColumnsOf(ths)
  {
    var indexName, indexFailures, indexButton: Option<nat> := None, None, None;
    for k := 0 to |ths|
      invariant indexName == ColumnIndex(ths[..k], "Name")
      invariant indexFailures == ColumnIndex(ths[..k], "Failures")
      invariant indexButton == ColumnsOf(ths[..k]).button
    {
      ColumnIndexStep(ths, k, "Name");
      ColumnIndexStep(ths, k, "Failures");
      ColumnIndexStep(ths, k, "Info");
      TitlesDistinct();
      var text := Strip(ths[k]);
      if text == "Name" {
        indexName := Some(k);
      } else if text == "Failures" {
        indexFailures := Some(k);
      } else if text == "Info" {
        indexButton := Some(k + 1);
      }
    }
    assert ths[..|ths|] == ths;
    columns := Columns(indexName, indexFailures, indexButton);
  }

  /** The row loop of get_webhooks: reads the data rows in order and gives up at the first one
      that raises. */
  method ReadRows(trs: seq<Row>, columns: Columns) returns (result: Option<seq<Webhook>>)
    ensures result == ParseRows(trs, columns)
  {
    var webhooksList: seq<Webhook> := [];
    for j := 0 to |trs|
      invariant ParseRows(trs[..j], columns) == Some(webhooksList)
    {
      assert trs[..j + 1][..j] == trs[..j];
      var record := ParseRow(trs[j], columns);
      if record.None? {
        ParseRowsMeaning(trs, columns);
        return None;
      }
      webhooksList := webhooksList + [record.value];
    }
    assert trs[..|trs|] == trs;
    return Some(webhooksList);
  }

  /** Worked case: the header row `Name`, `Failures`, `Info` puts the name in the first column,
      the failure count in the second and the button in the fourth. */
  lemma ColumnsExample()
    ensures ColumnsOf(["Name", "Failures", "Info"]) == Columns(Some(0), Some(1), Some(3))
  {
    var headers := ["Name", "Failures", "Info"];
    StripKeeps("Name");
    StripKeeps("Failures");
    StripKeeps("Info");
    TitlesDistinct();
    assert headers[..2] == ["Name", "Failures"] && headers[..2][..1] == ["Name"];
    assert ColumnIndex(headers, "Name") == Some(0);
    assert ColumnIndex(headers, "Failures") == Some(1);
    assert ColumnIndex(headers, "Info") == Some(2);
  }

  /** Worked case: a table whose headers are `Name`, `Failures`, `Info` yields, for a data row,
      the name, the failure count read with `int()`, and the form id of the cell after `Info`. */
  lemma ParseTableExample()
    ensures ParseTable(Some([
        Row(["Name", "Failures", "Info"], []),
        Row([], [Cell("hook", None), Cell("12", None), Cell("", None), Cell("", Some("b1"))])]))
      == Some([Webhook("hook", 12, "b1")])
  {
    var headers := ["Name", "Failures", "Info"];
    ColumnsExample();
    var columns := ColumnsOf(headers);
    var row := Row([], [Cell("hook", None), Cell("12", None), Cell("", None), Cell("", Some("b1"))]);
    SampleRowParses();
    ParseRowsMeaning([row], columns);
    var parsed := ParseRows([row], columns).value;
    assert parsed == [Webhook("hook", 12, "b1")];
    var rows := [Row(headers, []), row];
    assert rows[1..] == [row];
  }

  /** The data row of the worked case above, read with the columns its headers give. */
  lemma SampleRowParses()
    ensures ParseRow(Row([], [Cell("hook", None), Cell("12", None), Cell("", None), Cell("", Some("b1"))]),
                     Columns(Some(0), Some(1), Some(3)))
      == Some(Webhook("hook", 12, "b1"))
  {
    StripKeeps("hook");
    StripKeeps("12");
    assert "12"[..1] == "1" && "1"[..0] == "";
    assert ParseInt("12") == Some(12);
  }

  // ---------------------------------------------------------------- choosing what to reset

  /** The webhooks whose failure count is strictly above `threshold`, in list order. */
  function Overdue(ws: seq<Webhook>, threshold: int): seq<Webhook> {
    if ws == [] then []
    else
      var k := |ws| - 1;
      Overdue(ws[..k], threshold) + (if ws[k].failures > threshold then [ws[k]] else [])
  }

  /** Exactly the webhooks above the threshold are chosen. */
  lemma {:induction false} OverdueSelects(ws: seq<Webhook>, threshold: int)
    ensures forall w :: w in Overdue(ws, threshold) <==> w in ws && w.failures > threshold
  {
    if ws != [] {
      var k := |ws| - 1;
      OverdueSelects(ws[..k], threshold);
      assert ws == ws[..k] + [ws[k]];
    }
  }

  /** Choosing keeps the list order: it distributes over concatenation. */
  lemma {:induction false} OverdueAppend(a: seq<Webhook>, b: seq<Webhook>, threshold: int)
    ensures Overdue(a + b, threshold) == Overdue(a, threshold) + Overdue(b, threshold)
  {
    if b != [] {
      var k := |b| - 1;
      assert (a + b)[..|a + b| - 1] == a + b[..k];
      OverdueAppend(a, b[..k], threshold);
    } else {
      assert a + b == a;
    }
  }

  /** Extending the scanned prefix by one webhook adds it to the choice exactly when it is overdue. */
  lemma OverdueStep(ws: seq<Webhook>, i: nat, threshold: int)
    requires i < |ws|
    ensures Overdue(ws[..i + 1], threshold)
      == Overdue(ws[..i], threshold) + (if ws[i].failures > threshold then [ws[i]] else [])
  {
    assert ws[..i + 1][..i] == ws[..i];
  }

  /** The choice made over a prefix is a prefix of the choice made over the whole list. */
  lemma OverduePrefix(ws: seq<Webhook>, i: nat, threshold: int)
    requires i <= |ws|
    ensures |Overdue(ws[..i], threshold)| <= |Overdue(ws, threshold)|
    ensures Overdue(ws, threshold)[..|Overdue(ws[..i], threshold)|] == Overdue(ws[..i], threshold)
  {
    assert ws == ws[..i] + ws[i..];
    OverdueAppend(ws[..i], ws[i..], threshold);
  }

  /** The POSTs that reset `ws`, one per webhook, each to `urlButton/<button id>`. */
  function Pings(urlButton: string, ws: seq<Webhook>): seq<Request> {
    seq(|ws|, i requires 0 <= i < |ws| => Ping(urlButton, ws[i].buttonId))
  }

  /** Pinging one more webhook appends its POST. */
  lemma PingsSnoc(urlButton: string, ws: seq<Webhook>, w: Webhook)
    ensures Pings(urlButton, ws + [w]) == Pings(urlButton, ws) + [Ping(urlButton, w.buttonId)]
  {
  }

  /** Each reset POST goes to `url_button + '/' + button_id` of its webhook. */
  lemma PingUrls(urlButton: string, ws: seq<Webhook>)
    ensures |Pings(urlButton, ws)| == |ws|
    ensures forall i :: 0 <= i < |ws| ==> Pings(urlButton, ws)[i].Url() == urlButton + "/" + ws[i].buttonId
  {
  }

  /** The targets actually pinged: all of them, or those up to and including the `k`-th (from 0)
      when that POST raises, which ends the loop. */
  function Attempted(targets: seq<Webhook>, failAt: Option<nat>): seq<Webhook> {
    match failAt
    case None => targets
    case Some(k) => if k < |targets| then targets[..k + 1] else targets
  }

  /** When the failing ping lies beyond the targets, every target is pinged. */
  lemma AttemptedAll(targets: seq<Webhook>, failAt: Option<nat>)
    requires failAt.Some? ==> |targets| <= failAt.value
    ensures Attempted(targets, failAt) == targets
  {
  }

  /** When the ping of the `i`-th webhook is the one that raises, the pings sent are those of
      the overdue webhooks among the first `i + 1`. */
  lemma AttemptedCut(ws: seq<Webhook>, i: nat, threshold: int, failAt: Option<nat>)
    requires i < |ws|
    requires failAt.Some? && |Overdue(ws[..i + 1], threshold)| == failAt.value + 1
    ensures Attempted(Overdue(ws, threshold), failAt) == Overdue(ws[..i + 1], threshold)
  {
    OverduePrefix(ws, i + 1, threshold);
  }

  /** The stored list, `None` read as empty (both are falsy). */
  function Known(webhooks: Option<seq<Webhook>>): seq<Webhook> {
    if webhooks.Some? then webhooks.value else []
  }

  /** The loop of reset_webhooks: walks the list in order and posts a ping for each webhook
      above `threshold`, until the `failAt`-th ping (from 0), if any, raises. Returns the POSTs
      sent, in order. */
  method SendPings(urlButton: string, ws: seq<Webhook>, threshold: int, failAt: Option<nat>)
    returns (sent: seq<Request>)
    ensures sent == Pings(urlButton, Attempted(Overdue(ws, threshold), failAt))
  {
    var pinged: seq<Webhook> := [];
    sent := [];
    for i := 0 to |ws|
      invariant pinged == Overdue(ws[..i], threshold)
      invariant failAt.Some? ==> |pinged| <= failAt.value
      invariant sent == Pings(urlButton, pinged)
    {
      OverdueStep(ws, i, threshold);
      if ws[i].failures > threshold {
        PingsSnoc(urlButton, pinged, ws[i]);
        sent := sent + [Ping(urlButton, ws[i].buttonId)];
        pinged := pinged + [ws[i]];
        if failAt == Some(|pinged| - 1) {
          // the POST raised: the exception leaves the loop
          AttemptedCut(ws, i, threshold, failAt);
          return;
        }
      }
    }
    assert ws[..|ws|] == ws;
    AttemptedAll(pinged, failAt);
  }

  // ---------------------------------------------------------------- the client

  class Application {
    const user: string
    const password: string
    const applicationId: string
    const urlAuth: string
    const urlButton: string
    /** Whether a login has succeeded. */
    var signedup: bool
    /** The last non-empty list of webhooks scraped, None before the first. */
    var webhooks: Option<seq<Webhook>>
    /** Every POST sent through the session, oldest first. */
    var requests: seq<Request>

    constructor (user: string, password: string, applicationId: string, urlAuth: string, urlButton: string)
      ensures this.user == user && this.password == password && this.applicationId == applicationId
      ensures this.urlAuth == urlAuth && this.urlButton == urlButton
      ensures !signedup && webhooks == None && requests == []
    {
      this.user, this.password, this.applicationId := user, password, applicationId;
      this.urlAuth, this.urlButton := urlAuth, urlButton;
      signedup, webhooks, requests := false, None, [];
    }

    /** The login POST, whose return URL is the application's webhook page. */
    function LoginRequest(): Request {
      Login(urlAuth, user, password, "/Application/Webhooks?applicationId=" + applicationId)
    }

    /** get_webhooks: unless already signed up, logs in and scrapes the webhook table.
        `response` is the login answer, None when the POST raises. */
    method GetWebhooks(response: Option<Page>)
      modifies this
      ensures old(signedup) ==> signedup && webhooks == old(webhooks) && requests == old(requests)
      ensures !old(signedup) ==> requests == old(requests) + [LoginRequest()]
      ensures !old(signedup) ==> (signedup <==> response.Some? && response.value.status == StatusOk)
      ensures webhooks ==
        if && !old(signedup) && response.Some? && response.value.status == StatusOk
           && ParseTable(response.value.table).Some? && ParseTable(response.value.table).value != []
        then ParseTable(response.value.table)
        else old(webhooks)
    {
      if signedup {
        return;
      }
      requests := requests + [LoginRequest()];
      if response.None? || response.value.status != StatusOk {
        return;
      }
      signedup := true;
      var page := response.value;
      if page.table.None? || page.table.value == [] {
        return;
      }
      var trs := page.table.value;
      var columns := FindColumns(trs[0].headers);
      var parsed := ReadRows(trs[1..], columns);
      if parsed.Some? && parsed.value != [] {
        webhooks := parsed;
      }
    }

    /** reset_webhooks: pings, in list order, every stored webhook whose failure count is above
        `threshold`, 10 unless given. `failAt` is the number (from 0) of the first ping whose POST raises, if any:
        that exception ends the loop. */
    method ResetWebhooks(failAt: Option<nat>, threshold: int := DefaultThreshold)
      modifies this`requests
      ensures signedup == old(signedup) && webhooks == old(webhooks)
      ensures requests == old(requests) + Pings(urlButton, Attempted(Overdue(Known(webhooks), threshold), failAt))
    {
      // a missing or empty list is falsy, and looping over nothing sends nothing
      var sent := SendPings(urlButton, Known(webhooks), threshold, failAt);
      requests := requests + sent;
    }
  }
}
