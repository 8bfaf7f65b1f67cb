/**
 * The selection and export loop of project/src/pages/ExportPDF.tsx.
 *
 * The selection is a JavaScript Set of session ids. A Set iterates in
 * insertion order, and the export visits the ids in that order, so it is
 * modelled as a sequence without duplicates: `add` appends, `delete`
 * removes in place. Rendering a report to a canvas and the jsPDF calls
 * are recorded as a list of operations on the document.
 */
module ExportPdf {
  import opened Common
  import opened Records

  /* ======  Selection  ====== */

  /** Set.prototype.delete: the ids other than id, in their order. */
  function Without(sel: seq<int>, id: int): (r: seq<int>)
    ensures forall x :: x in r <==> x in sel && x != id
    ensures IsSubsequence(r, sel)
    ensures |r| <= |sel| && (id in sel ==> |r| < |sel|)
    ensures NoDuplicates(sel) ==> NoDuplicates(r)
    decreases |sel|
  {
    if |sel| == 0 then []
    else
      var rest := Without(sel[1..], id);
      assert forall x :: x in sel[1..] ==> x in sel;
      if sel[0] == id then rest
      else
        assert ([sel[0]] + rest)[1..] == rest;
        assert NoDuplicates(sel) ==> sel[0] !in sel[1..];
        [sel[0]] + rest
  }

  /** Deleting an id that is not there changes nothing. */
  lemma {:induction false} WithoutAbsent(sel: seq<int>, id: int)
    requires id !in sel
    ensures Without(sel, id) == sel
    decreases |sel|
  {
    if |sel| > 0 {
      WithoutAbsent(sel[1..], id);
      assert [sel[0]] + sel[1..] == sel;
    }
  }

  /** Deleting an id just added at the end gives back the set before the add. */
  lemma {:induction false} WithoutAppended(sel: seq<int>, id: int)
    requires id !in sel
    ensures Without(sel + [id], id) == sel
    decreases |sel|
  {
    if |sel| == 0 {
      assert Without([id], id) == Without([], id);
    } else {
      assert (sel + [id])[1..] == sel[1..] + [id];
      WithoutAppended(sel[1..], id);
      assert [sel[0]] + sel[1..] == sel;
    }
  }

  /** toggleSession on the Set: a selected id is deleted, any other id is added. */
  function Toggled(sel: seq<int>, id: int): (r: seq<int>)
    ensures id in r <==> id !in sel
    ensures forall x :: x != id ==> (x in r <==> x in sel)
    ensures NoDuplicates(sel) ==> NoDuplicates(r)
    ensures id !in sel ==> r == sel + [id]
    ensures id in sel ==> IsSubsequence(r, sel) && |r| < |sel|
  {
    if id in sel then Without(sel, id) else sel + [id]
  }

  /**
   * Toggling the same id twice gives back the same set of ids; when the id
   * was not selected it gives back exactly the same selection.
   */
  lemma ToggleTwice(sel: seq<int>, id: int)
    ensures forall x :: x in Toggled(Toggled(sel, id), id) <==> x in sel
    ensures id !in sel ==> Toggled(Toggled(sel, id), id) == sel
  {
    if id !in sel {
      WithoutAppended(sel, id);
    }
  }

  /**
   * Toggling a selected id off and on again moves it to the end of the
   * Set's order, and so to the end of the exported document.
   */
  lemma ToggleTwiceMovesToEnd(sel: seq<int>, id: int)
    requires NoDuplicates(sel) && id in sel
    ensures Toggled(Toggled(sel, id), id) == Without(sel, id) + [id]
  {
  }

  /** `new Set(array)`: the values of xs after acc, each once, in order of first occurrence. */
  function DedupFrom(acc: seq<int>, xs: seq<int>): (r: seq<int>)
    ensures NoDuplicates(acc) ==> NoDuplicates(r)
    ensures forall x :: x in r <==> x in acc || x in xs
    ensures |acc| <= |r| && r[..|acc|] == acc
    decreases |xs|
  {
    if |xs| == 0 then acc
    else
      assert forall x :: x in xs <==> x == xs[0] || x in xs[1..];
      var next := if xs[0] in acc then acc else acc + [xs[0]];
      var r := DedupFrom(next, xs[1..]);
      assert r[..|acc|] == next[..|acc|];
      r
  }

  function Dedup(xs: seq<int>): (r: seq<int>)
    ensures NoDuplicates(r)
    ensures forall x :: x in r <==> x in xs
  {
    DedupFrom([], xs)
  }

  /** Values that are already distinct keep their order. */
  lemma {:induction false} DedupFromDistinct(acc: seq<int>, xs: seq<int>)
    requires NoDuplicates(acc + xs)
    ensures DedupFrom(acc, xs) == acc + xs
    decreases |xs|
  {
    if |xs| > 0 {
      assert xs[0] == (acc + xs)[|acc|];
      assert xs[0] !in acc by {
        forall j | 0 <= j < |acc| ensures acc[j] != xs[0] {
          assert acc[j] == (acc + xs)[j];
        }
      }
      assert acc + [xs[0]] + xs[1..] == acc + xs;
      DedupFromDistinct(acc + [xs[0]], xs[1..]);
    }
  }

  /** `sessions.map(s => s.id!)` for sessions read back from the store, which all carry an id. */
  function SessionIds(sessions: seq<QcSession>): (ids: seq<int>)
    requires forall i :: 0 <= i < |sessions| ==> sessions[i].id.Some?
    ensures |ids| == |sessions|
    ensures forall i :: 0 <= i < |sessions| ==> Some(ids[i]) == sessions[i].id
  {
    seq(|sessions|, i requires 0 <= i < |sessions| && sessions[i].id.Some? => sessions[i].id.value)
  }

  /* ======  Export  ====== */

  /** `sessions.find(s => s.id === id)`: the first session with that id, if any. */
  function Find(sessions: seq<QcSession>, id: int): (r: Option<QcSession>)
    ensures r.None? <==> forall i :: 0 <= i < |sessions| ==> sessions[i].id != Some(id)
    ensures r.Some? ==>
      exists i :: (0 <= i < |sessions| && sessions[i] == r.value && r.value.id == Some(id)
                   && forall j :: 0 <= j < i ==> sessions[j].id != Some(id))
    decreases |sessions|
  {
    if |sessions| == 0 then None
    else if sessions[0].id == Some(id) then Some(sessions[0])
    else
      var r := Find(sessions[1..], id);
      assert forall i :: 1 <= i < |sessions| ==> sessions[i] == sessions[1..][i - 1];
      if r.Some? then
        var k :| 0 <= k < |sessions[1..]| && sessions[1..][k] == r.value
          && r.value.id == Some(id) && forall j :: 0 <= j < k ==> sessions[1..][j].id != Some(id);
        assert sessions[k + 1] == r.value;
        assert forall j :: 0 <= j < k + 1 ==> sessions[j].id != Some(id) by {
          forall j | 0 <= j < k + 1 ensures sessions[j].id != Some(id) {
            if j > 0 {
              assert sessions[j] == sessions[1..][j - 1];
            }
          }
        }
        r
      else r
  }

  /** What the loop does to the document. */
  datatype PdfOp = AddPage | AddImage(session: QcSession) | SavePdf

  datatype ExportOutcome =
    | NothingSelected   // the "select at least one session" alert
    | LibrariesMissing  // the "libraries not loaded" alert
    | ScriptError       // the TypeError thrown by reading `jspdf.jsPDF` while `window.jspdf` is undefined
    | Exported(ops: seq<PdfOp>)

  /** The sessions the loop finds for the ids, in the order of the ids; ids without a session are skipped. */
  function FoundSessions(sessions: seq<QcSession>, ids: seq<int>): (found: seq<QcSession>)
    ensures |found| <= |ids|
    decreases |ids|
  {
    if |ids| == 0 then []
    else
      var last := Find(sessions, ids[|ids| - 1]);
      FoundSessions(sessions, ids[..|ids| - 1]) + (if last.Some? then [last.value] else [])
  }

  /** Every found session is in the list, and its id is one of the selected ids. */
  lemma {:induction false} FoundSessionsAreSelected(sessions: seq<QcSession>, ids: seq<int>)
    ensures forall s :: s in FoundSessions(sessions, ids) ==> s in sessions && exists k :: 0 <= k < |ids| && s.id == Some(ids[k])
    decreases |ids|
  {
    if |ids| > 0 {
      var prefix := ids[..|ids| - 1];
      FoundSessionsAreSelected(sessions, prefix);
      assert forall k :: 0 <= k < |prefix| ==> prefix[k] == ids[k];
    }
  }

  /** When every selected id has a session, one session is found per id. */
  lemma {:induction false} FoundSessionsAll(sessions: seq<QcSession>, ids: seq<int>)
    requires forall k :: 0 <= k < |ids| ==> Find(sessions, ids[k]).Some?
    ensures |FoundSessions(sessions, ids)| == |ids|
    decreases |ids|
  {
    if |ids| > 0 {
      var prefix := ids[..|ids| - 1];
      assert forall k :: 0 <= k < |prefix| ==> prefix[k] == ids[k];
      FoundSessionsAll(sessions, prefix);
    }
  }

  /** One more id extends the found sessions by that id's session, if it has one. */
  lemma FoundSessionsStep(sessions: seq<QcSession>, ids: seq<int>, k: int)
    requires 0 <= k < |ids|
    ensures FoundSessions(sessions, ids[..k + 1])
         == FoundSessions(sessions, ids[..k])
            + (var f := Find(sessions, ids[k]); if f.Some? then [f.value] else [])
  {
    assert ids[..k + 1][..k] == ids[..k] && ids[..k + 1][k] == ids[k];
    var f := Find(sessions, ids[k]);
    if f.None? {
      assert FoundSessions(sessions, ids[..k]) + [] == FoundSessions(sessions, ids[..k]);
    }
  }

  /** The operations of the loop over the found sessions: a new page before every report but the first. */
  function ExportOps(found: seq<QcSession>): (ops: seq<PdfOp>)
    ensures |found| == 0 ==> ops == []
    ensures |found| > 0 ==> |ops| == 2 * |found| - 1
    ensures |found| > 0 ==> ops[0] == AddImage(found[0]) && ops[|ops| - 1] == AddImage(found[|found| - 1])
    decreases |found|
  {
    if |found| == 0 then []
    else
      assert |found| > 1 ==> found[..|found| - 1][0] == found[0];
      ExportOps(found[..|found| - 1])
      + (if |found| > 1 then [AddPage] else [])
      + [AddImage(found[|found| - 1])]
  }

  /** One more found session adds a page (unless it is the first) and its report. */
  lemma ExportOpsStep(found: seq<QcSession>, s: QcSession)
    ensures ExportOps(found + [s]) == ExportOps(found) + (if |found| > 0 then [AddPage] else []) + [AddImage(s)]
  {
    var after := found + [s];
    assert after[..|after| - 1] == found && after[|after| - 1] == s;
  }

  function CountAddPage(ops: seq<PdfOp>): nat {
    if |ops| == 0 then 0 else (if ops[0] == AddPage then 1 else 0) + CountAddPage(ops[1..])
  }

  /** The reports placed in the document, in order. */
  function Images(ops: seq<PdfOp>): seq<QcSession> {
    if |ops| == 0 then [] else (if ops[0].AddImage? then [ops[0].session] else []) + Images(ops[1..])
  }

  lemma {:induction false} CountAddPageAppend(a: seq<PdfOp>, b: seq<PdfOp>)
    ensures CountAddPage(a + b) == CountAddPage(a) + CountAddPage(b)
    decreases |a|
  {
    if |a| > 0 {
      assert (a + b)[1..] == a[1..] + b;
      CountAddPageAppend(a[1..], b);
    } else {
      assert a + b == b;
    }
  }

  lemma {:induction false} ImagesAppend(a: seq<PdfOp>, b: seq<PdfOp>)
    ensures Images(a + b) == Images(a) + Images(b)
    decreases |a|
  {
    if |a| > 0 {
      assert (a + b)[1..] == a[1..] + b;
      ImagesAppend(a[1..], b);
    } else {
      assert a + b == b;
    }
  }

  /**
   * The document gets one report per found session, in order, and one
   * added page for every found session after the first.
   */
  lemma {:induction false} ExportOpsLayout(found: seq<QcSession>)
    ensures Images(ExportOps(found)) == found
    ensures CountAddPage(ExportOps(found)) == if |found| == 0 then 0 else |found| - 1
    decreases |found|
  {
    if |found| > 0 {
      var prefix := found[..|found| - 1];
      var x := found[|found| - 1];
      var pageOps := if |found| > 1 then [AddPage] else [];
      ExportOpsLayout(prefix);
      assert prefix + [x] == found;
      ExportOpsStep(prefix, x);
      CountAddPageAppend(ExportOps(prefix) + pageOps, [AddImage(x)]);
      CountAddPageAppend(ExportOps(prefix), pageOps);
      ImagesAppend(ExportOps(prefix) + pageOps, [AddImage(x)]);
      ImagesAppend(ExportOps(prefix), pageOps);
      assert [AddImage(x)][1..] == [] && [AddPage][1..] == [];
      assert Images(pageOps) == [] && CountAddPage(pageOps) == |pageOps|;
    }
  }

  /** The page's state: the sessions read from the store and the selected ids. */
  class ExportPage {
    var sessions: seq<QcSession>
    var selected: seq<int>

    ghost predicate Valid()
      reads this
    {
      NoDuplicates(selected) && forall i :: 0 <= i < |sessions| ==> sessions[i].id.Some?
    }

    /** loadSessions, with nothing selected yet. */
    constructor (stored: seq<QcSession>)
      requires forall i :: 0 <= i < |stored| ==> stored[i].id.Some?
      ensures Valid() && sessions == stored && selected == []
    {
      sessions := stored;
      selected := [];
    }

    /** toggleSession: copy the Set, then delete the id if present and add it otherwise. */
    method ToggleSession(id: int)
      requires Valid()
      modifies this`selected
      ensures Valid()
      ensures selected == Toggled(old(selected), id)
    {
      var newSelected := selected;
      if id in newSelected {
        newSelected := Without(newSelected, id);
      } else {
        newSelected := newSelected + [id];
      }
      selected := newSelected;
    }

    /** Select All: every session's id, once each. */
    method SelectAll()
      requires Valid()
      modifies this`selected
      ensures Valid()
      ensures selected == Dedup(SessionIds(sessions))
      ensures forall x :: x in selected <==> exists i :: 0 <= i < |sessions| && sessions[i].id == Some(x)
    {
      var ids := SessionIds(sessions);
      selected := Dedup(ids);
      forall x | x in selected ensures exists i :: 0 <= i < |sessions| && sessions[i].id == Some(x) {
        var i :| 0 <= i < |ids| && ids[i] == x;
        assert sessions[i].id == Some(x);
      }
    }

    /** Deselect All */
    method DeselectAll()
      requires Valid()
      modifies this`selected
      ensures Valid() && selected == []
    {
      selected := [];
    }

    /**
     * The loop of handleExportSelected and the save after it: one report per
     * selected id that has a session, a new page before every report but the
     * first.
     */
    method RenderSelected() returns (ops: seq<PdfOp>)
      requires Valid()
      ensures ops == ExportOps(FoundSessions(sessions, selected)) + [SavePdf]
    {
      ops := [];
      var isFirstPage := true;
      var k := 0;
      while k < |selected|
        invariant 0 <= k <= |selected|
        invariant ops == ExportOps(FoundSessions(sessions, selected[..k]))
        invariant isFirstPage <==> |FoundSessions(sessions, selected[..k])| == 0
      {
        ghost var before := FoundSessions(sessions, selected[..k]);
        FoundSessionsStep(sessions, selected, k);
        var session := Find(sessions, selected[k]);
        if session.Some? {
          ExportOpsStep(before, session.value);
          if !isFirstPage {
            ops := ops + [AddPage];
          }
          isFirstPage := false;
          ops := ops + [AddImage(session.value)];
          assert ops == ExportOps(before + [session.value]);
        } else {
          assert before + [] == before;
        }
        k := k + 1;
      }
      assert selected[..k] == selected;
      ops := ops + [SavePdf];
    }

    /**
     * handleExportSelected as written: alert and stop on an empty selection;
     * then read both libraries from `window`, which throws when the jsPDF
     * script is missing; alert and stop when html2canvas is missing;
     * otherwise render and save.
     */
    method HandleExportSelected(html2canvasLoaded: bool, jspdfLoaded: bool) returns (outcome: ExportOutcome)
      requires Valid()
      ensures outcome == ExportOutcomeAsWritten(sessions, selected, html2canvasLoaded, jspdfLoaded)
    {
      if |selected| == 0 {
        return NothingSelected;
      }
      if !jspdfLoaded {
        return ScriptError;
      }
      if !html2canvasLoaded {
        return LibrariesMissing;
      }
      var ops := RenderSelected();
      return Exported(ops);
    }

    /** handleExportSelected with the jsPDF lookup guarded, so that either missing library gives the alert. */
    method HandleExportSelectedGuarded(html2canvasLoaded: bool, jspdfLoaded: bool) returns (outcome: ExportOutcome)
      requires Valid()
      ensures outcome == ExportOutcomeGuarded(sessions, selected, html2canvasLoaded, jspdfLoaded)
    {
      if |selected| == 0 {
        return NothingSelected;
      }
      if !html2canvasLoaded || !jspdfLoaded {
        return LibrariesMissing;
      }
      var ops := RenderSelected();
      return Exported(ops);
    }
  }

  /**
   * What handleExportSelected does as written. `(window as any).jspdf.jsPDF`
   * is evaluated before the library check, so a missing jsPDF script throws
   * a TypeError instead of reaching the alert; only a missing html2canvas
   * gives the "libraries not loaded" alert.
   */
  function ExportOutcomeAsWritten(sessions: seq<QcSession>, selected: seq<int>, html2canvasLoaded: bool, jspdfLoaded: bool): (o: ExportOutcome)
    ensures o == NothingSelected <==> |selected| == 0
    ensures o == ScriptError <==> |selected| > 0 && !jspdfLoaded
    ensures o == LibrariesMissing <==> |selected| > 0 && jspdfLoaded && !html2canvasLoaded
    ensures o.Exported? <==> |selected| > 0 && jspdfLoaded && html2canvasLoaded
    ensures o.Exported? ==> o.ops == ExportOps(FoundSessions(sessions, selected)) + [SavePdf]
  {
    if |selected| == 0 then NothingSelected
    else if !jspdfLoaded then ScriptError
    else if !html2canvasLoaded then LibrariesMissing
    else Exported(ExportOps(FoundSessions(sessions, selected)) + [SavePdf])
  }

  /** The intended handleExportSelected: either missing library gives the alert, and nothing throws. */
  function ExportOutcomeGuarded(sessions: seq<QcSession>, selected: seq<int>, html2canvasLoaded: bool, jspdfLoaded: bool): (o: ExportOutcome)
    ensures o != ScriptError
    ensures o == NothingSelected <==> |selected| == 0
    ensures o == LibrariesMissing <==> |selected| > 0 && (!html2canvasLoaded || !jspdfLoaded)
    ensures o.Exported? <==> |selected| > 0 && jspdfLoaded && html2canvasLoaded
    ensures o.Exported? ==> o.ops == ExportOps(FoundSessions(sessions, selected)) + [SavePdf]
  {
    if |selected| == 0 then NothingSelected
    else if !html2canvasLoaded || !jspdfLoaded then LibrariesMissing
    else Exported(ExportOps(FoundSessions(sessions, selected)) + [SavePdf])
  }

  /**
   * As written, a non-empty selection with html2canvas loaded and jsPDF
   * missing throws instead of showing the alert the library check is for.
   */
  lemma MissingJsPdfSkipsAlert(sessions: seq<QcSession>)
    ensures ExportOutcomeAsWritten(sessions, [1], true, false) == ScriptError
    ensures ExportOutcomeAsWritten(sessions, [1], true, false) != LibrariesMissing
  {
  }

  /** The guarded handler differs from the code as written only where the code throws. */
  lemma GuardedAgreesUnlessThrown(sessions: seq<QcSession>, selected: seq<int>, html2canvasLoaded: bool, jspdfLoaded: bool)
    ensures ExportOutcomeAsWritten(sessions, selected, html2canvasLoaded, jspdfLoaded) != ScriptError ==>
      ExportOutcomeGuarded(sessions, selected, html2canvasLoaded, jspdfLoaded)
      == ExportOutcomeAsWritten(sessions, selected, html2canvasLoaded, jspdfLoaded)
    ensures ExportOutcomeAsWritten(sessions, selected, html2canvasLoaded, jspdfLoaded) == ScriptError ==>
      ExportOutcomeGuarded(sessions, selected, html2canvasLoaded, jspdfLoaded) == LibrariesMissing
  {
  }

  /**
   * An export that goes ahead puts one report per found session in the
   * document and adds found − 1 pages; with no id found it saves the
   * single blank page jsPDF starts with.
   */
  lemma ExportedDocument(sessions: seq<QcSession>, selected: seq<int>)
    ensures var ops := ExportOps(FoundSessions(sessions, selected)) + [SavePdf];
      var found := FoundSessions(sessions, selected);
      && Images(ops) == found
      && CountAddPage(ops) == (if |found| == 0 then 0 else |found| - 1)
      && ops[|ops| - 1] == SavePdf
  {
    var found := FoundSessions(sessions, selected);
    ExportOpsLayout(found);
    CountAddPageAppend(ExportOps(found), [SavePdf]);
    ImagesAppend(ExportOps(found), [SavePdf]);
  }
}
