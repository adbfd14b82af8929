/**
 * The retrieval helpers: numbered rendering of retrieved passages and the
 * composition that renders the outcome of a similarity search. Splitting,
 * embedding and the vector search are an oracle whose outcome is an input,
 * `None` standing for a search that threw.
 */
module Rag {
  import opened Wrappers
  import opened Text

  /** A retrieved passage. */
  datatype Document = Document(pageContent: string)

  const NoInformation: string := "No relevant information found."

  /** The `index`-th passage (from 0), labelled with its number from 1. */
  function Entry(index: nat, doc: Document): (r: string)
    ensures StartsWith(r, "### Result " + NatToString(index + 1) + "\n")
    ensures r[|"### Result " + NatToString(index + 1) + "\n"|..] == doc.pageContent + "\n"
  {
    "### Result " + NatToString(index + 1) + "\n" + doc.pageContent + "\n"
  }

  function Entries(docs: seq<Document>): (r: seq<string>)
    ensures |r| == |docs| && forall i :: 0 <= i < |docs| ==> r[i] == Entry(i, docs[i])
  {
    seq(|docs|, i requires 0 <= i < |docs| => Entry(i, docs[i]))
  }

  /** `formatSearchResults`: the fixed sentence for no passages, otherwise the numbered entries joined. */
  function FormatSearchResults(docs: seq<Document>): (r: string)
    ensures docs == [] ==> r == NoInformation
    ensures |docs| == 1 ==> r == Entry(0, docs[0])
    ensures docs != [] ==> StartsWith(r, "### Result 1\n")
  {
    if |docs| == 0 then NoInformation
    else
      var es := Entries(docs);
      JoinStartsWithFirst("\n", es);
      assert NatToString(1) == "1";
      assert StartsWith(es[0], "### Result 1\n");
      Join("\n", es)
  }

  /** One more passage is appended with the next number, so the numbering is consecutive. */
  lemma FormatSnoc(docs: seq<Document>, doc: Document)
    requires docs != []
    ensures FormatSearchResults(docs + [doc]) == FormatSearchResults(docs) + "\n" + Entry(|docs|, doc)
  {
    assert Entries(docs + [doc]) == Entries(docs) + [Entry(|docs|, doc)];
    JoinSnoc("\n", Entries(docs), Entry(|docs|, doc));
  }

  /** Different positions carry different labels. */
  lemma LabelsDistinct(i: nat, j: nat, d: Document, e: Document)
    requires i != j
    ensures Entry(i, d) != Entry(j, e)
  {
    var a, b := NatToString(i + 1), NatToString(j + 1);
    var x, y := Entry(i, d), Entry(j, e);
    assert x[..12 + |a|] == "### Result " + a + "\n";
    assert y[..12 + |b|] == "### Result " + b + "\n";
    if |a| < |b| {
      assert x[11 + |a|] == '\n' && y[11 + |a|] == b[|a|];
    } else if |b| < |a| {
      assert y[11 + |b|] == '\n' && x[11 + |b|] == a[|b|];
    } else {
      assert a != b by {
        if a == b { NatToStringInjective(i + 1, j + 1); }
      }
      var k :| 0 <= k < |a| && a[k] != b[k];
      assert x[11 + k] == a[k] && y[11 + k] == b[k];
    }
  }

  /**
   * `performRAG`: the rendering of what the search found; a search that
   * threw counts as finding nothing.
   */
  function PerformRag(found: Option<seq<Document>>): (r: string)
    ensures found.None? ==> r == NoInformation
    ensures found.Some? ==> r == FormatSearchResults(found.value)
  {
    FormatSearchResults(found.GetOr([]))
  }
}
