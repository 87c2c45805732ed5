/**
 * Archives as sequences of named entries, and the output archive the
 * generator writes to (java.util.zip.ZipOutputStream). Compression and byte
 * encodings are not modelled.
 */
module Archive {
  import opened Strings
  import opened KernelXml

  /**
   * What an entry holds: text (bytes copied or decoded as characters), a
   * marshalled configuration document (the document, and the extension names
   * substituted for "custom-extension" in its rendering, in order), or a
   * nested archive written as raw bytes.
   */
  datatype Content =
    | Text(text: string)
    | Xml(document: Configuration, substitutions: seq<string>)
    | Zip(entries: seq<Entry>)

  datatype Entry = Entry(name: string, content: Content)

  /** ZipEntry.isDirectory: the name ends with '/'. */
  predicate IsDirectory(e: Entry) {
    EndsWith(e.name, "/")
  }

  function Names(es: seq<Entry>): set<string> {
    set e | e in es :: e.name
  }

  predicate UniqueNames(es: seq<Entry>) {
    forall i, j :: 0 <= i < j < |es| ==> es[i].name != es[j].name
  }

  /**
   * The entries after one `putNextEntry`: the stream refuses a name it has
   * already written ("duplicate entry") and keeps what it had.
   */
  function Put(es: seq<Entry>, e: Entry): (r: seq<Entry>)
    ensures e.name in Names(es) ==> r == es
    ensures e.name !in Names(es) ==> r == es + [e]
  {
    if e.name in Names(es) then es else es + [e]
  }

  /** The entries after a sequence of puts, in order. */
  function PutAll(es: seq<Entry>, ws: seq<Entry>): seq<Entry>
    decreases |ws|
  {
    if ws == [] then es else Put(PutAll(es, ws[..|ws| - 1]), ws[|ws| - 1])
  }

  lemma PutAllSnoc(es: seq<Entry>, ws: seq<Entry>, w: Entry)
    ensures PutAll(es, ws + [w]) == Put(PutAll(es, ws), w)
  {
    assert (ws + [w])[..|ws|] == ws;
  }

  /** Writing two batches in turn is writing their concatenation. */
  lemma {:induction false} PutAllAppend(es: seq<Entry>, a: seq<Entry>, b: seq<Entry>)
    ensures PutAll(es, a + b) == PutAll(PutAll(es, a), b)
    decreases |b|
  {
    if b == [] {
      assert a + b == a;
    } else {
      var init := b[..|b| - 1];
      PutAllAppend(es, a, init);
      assert (a + b)[..|a + b| - 1] == a + init;
    }
  }

  /** Puts only ever append, keep names unique, and every attempted name ends up in the archive. */
  lemma {:induction false} PutAllFacts(es: seq<Entry>, ws: seq<Entry>)
    requires UniqueNames(es)
    ensures es <= PutAll(es, ws)
    ensures UniqueNames(PutAll(es, ws))
    ensures Names(PutAll(es, ws)) == Names(es) + Names(ws)
    decreases |ws|
  {
    if ws != [] {
      var init := ws[..|ws| - 1];
      var w := ws[|ws| - 1];
      PutAllFacts(es, init);
      var before := PutAll(es, init);
      assert PutAll(es, ws) == Put(before, w);
      hide PutAll, Put;
      PutFacts(before, w);
      assert ws == init + [w];
      assert Names(ws) == Names(init) + {w.name} by {
        assert forall e :: e in ws <==> e in init || e == w;
      }
    }
  }

  /** One put appends or keeps the archive, keeps names unique, and leaves the name in the archive. */
  lemma PutFacts(es: seq<Entry>, w: Entry)
    requires UniqueNames(es)
    ensures es <= Put(es, w) && UniqueNames(Put(es, w))
    ensures Names(Put(es, w)) == Names(es) + {w.name}
  {
    if w.name !in Names(es) {
      forall i | 0 <= i < |es| ensures es[i].name != w.name {
        assert es[i] in es;
      }
      assert forall e :: e in es + [w] <==> e in es || e == w;
    }
  }

  /** The output archive: the entries written so far, names unique. */
  class ZipOutput {
    var entries: seq<Entry>

    ghost predicate Valid()
      reads this
    {
      UniqueNames(entries)
    }

    constructor()
      ensures Valid() && entries == []
    {
      entries := [];
    }

    /** putNextEntry + write + closeEntry; `ok` is false when the name was already written. */
    method PutNextEntry(e: Entry) returns (ok: bool)
      requires Valid()
      modifies this
      ensures Valid()
      ensures ok == (e.name !in Names(old(entries)))
      ensures entries == Put(old(entries), e)
    {
      ok := e.name !in Names(entries);
      if ok {
        entries := entries + [e];
      }
    }
  }
}
