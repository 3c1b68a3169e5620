/** Which stored case files the purge can see (storage/casefile_io.py against storage/lifecycle.py). */
module Retention {
  import opened Wrappers
  import opened Text
  import C = CaseStore
  import opened Lifecycle
  import opened Calendar

  lemma StageNamesAreStages(st: C.Stage)
    ensures IsStage(C.StageName(st))
  {
  }

  /** A slash inside the id leaves a slash in the part that should be the file name. */
  lemma SlashIsNotStageFile(tail: string, k: nat)
    requires k < |tail| && tail[k] == '/' && |tail| - k >= 12
    ensures !IsStageFile(tail)
  {
    var t := DropFinalNewline(tail);
    assert t[k] == '/' && !StageChar('/');
    if |t| >= 5 { assert t[..|t| - 5][k] == '/'; }
  }

  lemma SplitAtSlash(id: string) returns (head: string, mid: string)
    requires '/' in id
    ensures id == head + "/" + mid && '/' !in head
  {
    var k := FirstSlash(id);
    assert id[..|id|] == id;
    head, mid := id[..k], id[k + 1..];
  }

  lemma UnseenParts(head: string, file: string, k: nat)
    requires '/' !in head && k < |file| && file[k] == '/' && |file| - k >= 12
    ensures ExtractCaseId("cases/" + (head + "/" + file)).None?
  {
    var rest := head + "/" + file;
    assert ("cases/" + rest)[6..] == rest;
    FirstSlashUnique(head, file);
    assert rest[|head| + 1..] == file;
    SlashIsNotStageFile(file, k);
  }

  lemma SlashedIdIsUnseen(id: string, st: C.Stage)
    requires '/' in id
    ensures ExtractCaseId(C.KeyOf(id, st)).None?
  {
    var head, mid := SplitAtSlash(id);
    var name := C.StageName(st) + ".json";
    var file := mid + "/" + name;
    assert file[|mid|] == '/' && |name| >= 11;
    UnseenParts(head, file, |mid|);
    Regroup(head, mid, C.StageName(st));
  }

  lemma Regroup(head: string, mid: string, name: string)
    ensures "cases/" + (head + "/" + (mid + "/" + (name + ".json"))) == "cases/" + (head + "/" + mid) + "/" + name + ".json"
  {
    assert head + "/" + (mid + "/" + (name + ".json")) == (head + "/" + mid) + ("/" + (name + ".json"));
  }

  /** The key of a case file is case-shaped for the purge if and only if its trimmed, non-empty case id has no slash;
      then the purge files it under exactly that id. */
  lemma StoredKeyIsSeenIff(id: string, st: C.Stage)
    requires id != ""
    ensures ExtractCaseId(C.KeyOf(id, st)).Some? <==> '/' !in id
    ensures '/' !in id ==> ExtractCaseId(C.KeyOf(id, st)) == Some(id)
  {
    if '/' in id {
      SlashedIdIsUnseen(id, st);
    } else {
      StageNamesAreStages(st);
      assert C.KeyOf(id, st) == "cases/" + id + "/" + C.StageName(st) + ".json" + "";
      ShapedIsExtracted(C.KeyOf(id, st), id, C.StageName(st), "");
    }
  }

  /** So no file of a case whose trimmed id has a slash is ever purged, however old. */
  lemma SlashedCasesAreNeverPurged(c: C.Codec, objects: C.Objects, f: C.CaseFile, faults: C.Faults, all: seq<Object>, cutoff: DateTime)
    requires C.PersistStage(c, objects, f, faults).1.Ok? && '/' in Strip(f.caseId)
    ensures C.ObjectKey(f.caseId, f.GetStage()).Ok? && !Doomed(all, cutoff, C.ObjectKey(f.caseId, f.GetStage()).value)
  {
    C.PersistCreatesConfirmsOrFails(c, objects, f, faults);
    SlashedIdIsUnseen(Strip(f.caseId), f.GetStage());
  }

  /** And a file of any other case is purged exactly when its case is old enough. */
  lemma StoredFileIsPurgedIff(f: C.CaseFile, all: seq<Object>, cutoff: DateTime)
    requires C.ObjectKey(f.caseId, f.GetStage()).Ok? && Listed(all, C.ObjectKey(f.caseId, f.GetStage()).value)
    ensures Doomed(all, cutoff, C.ObjectKey(f.caseId, f.GetStage()).value) <==>
            '/' !in Strip(f.caseId) && OldEnough(ObjectsOf(all, Strip(f.caseId)), cutoff)
  {
    StoredKeyIsSeenIff(Strip(f.caseId), f.GetStage());
  }

  /** Of the files of a case exactly the triage file dates it. */
  lemma TriageDatesTheCase(id: string, st: C.Stage, modified: DateTime)
    ensures IsTriage(Object(C.KeyOf(id, st), modified)) <==> st == C.Triage
  {
    if st == C.Triage {
      TriageTail(id);
    } else {
      C.KeyTail(id, st);
      TailMismatch(C.KeyOf(id, st), st);
    }
  }

  lemma TriageTail(id: string)
    ensures EndsWith(C.KeyOf(id, C.Triage), "/triage.json")
  {
    var key, tail := C.KeyOf(id, C.Triage), "/triage.json";
    assert "/" + "triage" + ".json" == tail;
    assert key == ("cases/" + id) + tail;
  }

  lemma TailMismatch(key: string, st: C.Stage)
    requires st != C.Triage && |key| >= 12 && C.FromEnd(key, 9) == C.FromEnd(C.StageName(st), 4)
    ensures !EndsWith(key, "/triage.json")
  {
    var t := key[|key| - 12..];
    assert t[3] == C.FromEnd(key, 9) && "/triage.json"[3] == 'i';
  }
}
