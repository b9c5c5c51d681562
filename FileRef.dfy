/**
 * FileRef: a reference to a file (and possibly a second one) with the line
 * numbers of interest filed under reason keys. The TreeMultimap of line
 * numbers keeps each (key, line) entry once, so it is modelled as a set of
 * pairs; its size is the number of entries. Paths are strings, null is None.
 */
module FileRef {
  import opened Wrappers

  /** One multimap entry: a reason and a line number. */
  type Entry = (string, int)

  /** Everything a FileRef holds. */
  datatype RefValue = RefValue(path: Option<string>, secondPath: Option<string>, lineNo: set<Entry>)

  /** The line numbers recorded under any key. */
  function Lines(entries: set<Entry>): set<int>
  {
    set e | e in entries :: e.1
  }

  /** new FileRef(fileRef, reason): the same path and every recorded line number, re-filed under the reason. */
  function Reasoned(c: RefValue, reason: string): (r: RefValue)
    ensures r.path == c.path && r.secondPath == None
    ensures forall e :: e in r.lineNo ==> e.0 == reason
  {
    RefValue(c.path, None, set e | e in c.lineNo :: (reason, e.1))
  }

  /** add(other): the receiver when it already holds more than 100 entries; else a join (None when the receiver's path is null). */
  datatype JoinResult = Receiver | Joined(contents: RefValue) | NullPath

  function Join(a: RefValue, b: RefValue): JoinResult
  {
    if |a.lineNo| > 100 then Receiver
    else if a.path.None? then NullPath
    else
      Joined(RefValue(a.path, if a.path != b.path then b.path else None, a.lineNo + b.lineNo))
  }

  /** reason keeps exactly the line numbers, all under the new key. */
  lemma ReasonKeepsLines(c: RefValue, reason: string)
    ensures Lines(Reasoned(c, reason).lineNo) == Lines(c.lineNo)
    ensures forall n :: n in Lines(c.lineNo) <==> (reason, n) in Reasoned(c, reason).lineNo
  {
    var r := Reasoned(c, reason);
    forall n | n in Lines(c.lineNo)
      ensures n in Lines(r.lineNo)
    {
      var e :| e in c.lineNo && e.1 == n;
      assert (reason, n) in r.lineNo;
    }
  }

  /** A join keeps the receiver's path, names the other path second iff it differs, and holds the union of both entry sets. */
  lemma JoinIsUnion(a: RefValue, b: RefValue)
    requires |a.lineNo| <= 100 && a.path.Some?
    ensures Join(a, b).Joined?
    ensures var j := Join(a, b).contents;
            && j.path == a.path
            && (j.secondPath == b.path <==> a.path != b.path || b.path.None?)
            && (forall e :: e in j.lineNo <==> e in a.lineNo || e in b.lineNo)
  {
  }

  /** Joining a ref with one of the same path and entries changes nothing but drops the second path. */
  lemma JoinSelf(a: RefValue)
    requires |a.lineNo| <= 100 && a.path.Some?
    ensures Join(a, a) == Joined(a.(secondPath := None))
  {
  }

  class FileRef {
    var path: Option<string>
    var secondPath: Option<string>
    var lineNo: set<Entry>

    function Contents(): RefValue
      reads this
    {
      RefValue(path, secondPath, lineNo)
    }

    constructor ()
      ensures Contents() == RefValue(None, None, {})
    {
      path := None;
      secondPath := None;
      lineNo := {};
    }

    constructor WithPath(path: string)
      ensures Contents() == RefValue(Some(path), None, {})
    {
      this.path := Some(path);
      secondPath := None;
      lineNo := {};
    }

    /** new FileRef(fileRef, reason). */
    constructor ForReason(fileRef: FileRef, reason: string)
      ensures Contents() == Reasoned(fileRef.Contents(), reason)
    {
      path := fileRef.path;
      secondPath := None;
      lineNo := set e | e in fileRef.lineNo :: (reason, e.1);
    }

    /** new FileRef(path, lineNo): the line filed under the empty key. */
    constructor AtLine(path: string, lineNo: int)
      ensures Contents() == RefValue(Some(path), None, {("", lineNo)})
    {
      this.path := Some(path);
      secondPath := None;
      this.lineNo := {("", lineNo)};
    }

    method SetSecondPath(secondPath: Option<string>)
      modifies this
      ensures Contents() == old(Contents()).(secondPath := secondPath)
    {
      this.secondPath := secondPath;
    }

    method SetPath(path: Option<string>)
      modifies this
      ensures Contents() == old(Contents()).(path := path)
    {
      this.path := path;
    }

    method GetSecondPath() returns (r: Option<string>)
      ensures r == secondPath
    {
      r := secondPath;
    }

    method GetPath() returns (r: Option<string>)
      ensures r == path
    {
      r := path;
    }

    method GetLineNo() returns (r: set<Entry>)
      ensures r == lineNo
    {
      r := lineNo;
    }

    /** setLineNo: puts every given entry; entries already present stay once. */
    method SetLineNo(entries: seq<Entry>)
      modifies this
      ensures Contents() == old(Contents()).(lineNo := old(lineNo) + set e | e in entries)
    {
      var i := 0;
      while i < |entries|
        invariant 0 <= i <= |entries|
        invariant lineNo == old(lineNo) + set e | e in entries[..i]
        invariant path == old(path) && secondPath == old(secondPath)
      {
        assert entries[..i + 1] == entries[..i] + [entries[i]];
        lineNo := lineNo + {entries[i]};
        i := i + 1;
      }
      assert entries[..i] == entries;
    }

    /** reason(r): a new ref; the receiver is untouched. */
    method Reason(reason: string) returns (r: FileRef)
      ensures fresh(r) && r.Contents() == Reasoned(Contents(), reason)
    {
      r := new FileRef.ForReason(this, reason);
    }

    /** add(other): the receiver itself past 100 entries, else a new joined ref; neither operand changes. */
    method Add(fileRef: FileRef) returns (r: Result<FileRef>)
      ensures Join(Contents(), fileRef.Contents()) == Receiver ==> r == Ok(this)
      ensures Join(Contents(), fileRef.Contents()) == NullPath ==> r == Err(NullPointer)
      ensures Join(Contents(), fileRef.Contents()).Joined? ==>
                r.Ok? && fresh(r.value) && r.value.Contents() == Join(Contents(), fileRef.Contents()).contents
    {
      if |lineNo| > 100 {
        return Ok(this);
      }
      if path.None? {
        return Err(NullPointer);
      }
      var joined := new FileRef.WithPath(path.value);
      if path != fileRef.path {
        joined.secondPath := fileRef.path;
      }
      joined.lineNo := lineNo + fileRef.lineNo;
      return Ok(joined);
    }
  }
}
