/**
 * The browser storage entry `fiscal_declarations` that holds the whole
 * declaration collection, most recent first. The JSON text itself is not
 * modelled: the entry is absent, unreadable, or a list of records.
 */
module Store {
  import opened Wrappers
  import opened Declaration

  /** What the storage key holds. `Corrupt` stands for any text `JSON.parse` rejects or that is not a list. */
  datatype Stored = Absent | Corrupt | Saved(decls: seq<Declaration>)

  /** The history page's reading: a missing or unreadable entry is the empty collection. */
  function Listed(s: Stored): (r: seq<Declaration>)
    ensures s.Saved? ==> r == s.decls
    ensures !s.Saved? ==> r == []
  {
    match s
    case Saved(ds) => ds
    case _ => []
  }

  /**
   * The creation page's reading, `JSON.parse(getItem(...) ?? "[]")`: a missing
   * entry is the empty list, an unreadable one is a parse failure (None).
   */
  function Existing(s: Stored): (r: Option<seq<Declaration>>)
    ensures r.None? <==> s.Corrupt?
    ensures r.Some? ==> r.value == Listed(s)
  {
    match s
    case Absent => Some([])
    case Corrupt => None
    case Saved(ds) => Some(ds)
  }

  /**
   * The entry after the creation page stores `d` in front of the existing
   * records. A parse failure, or a write the browser refuses (`writable`
   * false), is swallowed and leaves the entry as it was.
   */
  function AfterPrepend(s: Stored, d: Declaration, writable: bool): (r: Stored)
    ensures !writable || s.Corrupt? ==> r == s
    ensures writable && !s.Corrupt? ==> r == Saved([d] + Listed(s))
  {
    match Existing(s)
    case None => s
    case Some(existing) => if writable then Saved([d] + existing) else s
  }

  /** A stored record is listed first, and the records that were there follow in their order. */
  lemma PrependThenList(s: Stored, d: Declaration)
    requires !s.Corrupt?
    ensures |Listed(AfterPrepend(s, d, true))| == |Listed(s)| + 1
    ensures Listed(AfterPrepend(s, d, true))[0] == d
    ensures Listed(AfterPrepend(s, d, true))[1..] == Listed(s)
  {
  }

  /** The storage entry, as the class that reads and writes it. */
  class DeclarationStore {
    var content: Stored

    constructor (initial: Stored)
      ensures content == initial
    {
      content := initial;
    }

    /** The history page's load: `raw ? JSON.parse(raw) : []`, with a parse failure caught as `[]`. */
    method Load() returns (ds: seq<Declaration>)
      ensures ds == Listed(content)
    {
      match content
      case Absent => ds := [];
      case Corrupt => ds := [];
      case Saved(saved) => ds := saved;
    }

    /** The creation page's read of the existing list before it prepends. */
    method ReadExisting() returns (r: Option<seq<Declaration>>)
      ensures r == Existing(content)
    {
      if content.Corrupt? {
        r := None;
      } else {
        r := Some(Listed(content));
      }
    }

    /** `setItem` of a whole list; a write the browser refuses is swallowed. */
    method Write(ds: seq<Declaration>, writable: bool)
      modifies this
      ensures content == if writable then Saved(ds) else old(content)
    {
      if writable {
        content := Saved(ds);
      }
    }
  }
}
