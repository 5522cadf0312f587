/** The objects both back ends use: libc, the stage and the five statistics. */
module Components {
  import opened Words
  import opened Operations
  import opened Accounting
  import opened Statistics
  import opened Engine

  /** libc and the kernel, with the calls made so far. */
  class Libc {
    const answer: (seq<Event>, Call) -> int
    var trace: seq<Event>

    constructor (answer: (seq<Event>, Call) -> int)
      ensures this.answer == answer && trace == []
    {
      this.answer := answer;
      trace := [];
    }

    method Invoke(call: Call) returns (ret: int)
      modifies this
      ensures ret == answer(old(trace), call) && trace == old(trace) + [Event(call, ret)]
    {
      ret := answer(trace, call);
      trace := trace + [Event(call, ret)];
    }
  }

  /** The boundary to PAIO: submissions in the order they are made, among the libc calls. */
  class DataPlaneStage {
    const libc: Libc
    var log: seq<Submission>

    constructor (libc: Libc)
      ensures this.libc == libc && log == []
    {
      this.libc := libc;
      log := [];
    }

    method EnforceRequest(workflow: u32, class_: Op, context: Context, size: u64)
      modifies this
      ensures log == old(log) + [Submission(workflow, class_, context, size, |libc.trace|)]
    {
      log := log + [Submission(workflow, class_, context, size, |libc.trace|)];
    }
  }

  /** The five statistics of a back end. */
  class StatisticsSet {
    const metadata: Statistics
    const data: Statistics
    const directory: Statistics
    const extAttr: Statistics
    const special: Statistics

    ghost const Repr: set<object>
    /** The counters of all entries. */
    ghost var books: Books

    ghost predicate Valid()
      reads this, Repr
    {
      && this !in Repr && Structured() && books == Contents()
    }

    ghost predicate Structured()
      reads Repr
    {
      && {metadata, data, directory, extAttr, special} <= Repr
      && IsOf(metadata, MetadataCalls, Repr) && IsOf(data, DataCalls, Repr) && IsOf(directory, DirectoryCalls, Repr)
      && IsOf(extAttr, ExtAttrCalls, Repr) && IsOf(special, SpecialCalls, Repr)
    }

    ghost function Contents(): Books
      requires Structured()
      reads Repr
    {
      Books(metadata.Contents(), data.Contents(), directory.Contents(), extAttr.Contents(), special.Contents())
    }

    ghost predicate AllUnused()
      reads this, Repr
    {
      && this !in Repr && Structured() && books == NEW_BOOKS
      && Unused(metadata) && Unused(data) && Unused(directory) && Unused(extAttr) && Unused(special)
    }

    lemma UnusedIsValid()
      requires AllUnused()
      ensures Valid()
    {
    }

    constructor ()
      ensures AllUnused() && fresh(Repr)
    {
      hide Unused, IsOf;
      var metadataStats, metadataRepr := NewStatistics("metadata", MetadataCalls);
      var dataStats, dataRepr := NewStatistics("data", DataCalls);
      var directoryStats, directoryRepr := NewStatistics("directory", DirectoryCalls);
      var extAttrStats, extAttrRepr := NewStatistics("ext-attr", ExtAttrCalls);
      var specialStats, specialRepr := NewStatistics("special", SpecialCalls);
      metadata, data, directory, extAttr, special :=
        metadataStats, dataStats, directoryStats, extAttrStats, specialStats;
      ghost var all := metadataRepr + dataRepr + directoryRepr + extAttrRepr + specialRepr;
      IsOfGrows(metadataStats, MetadataCalls, metadataRepr, all);
      IsOfGrows(dataStats, DataCalls, dataRepr, all);
      IsOfGrows(directoryStats, DirectoryCalls, directoryRepr, all);
      IsOfGrows(extAttrStats, ExtAttrCalls, extAttrRepr, all);
      IsOfGrows(specialStats, SpecialCalls, specialRepr, all);
      Repr := all;
      books := NEW_BOOKS;
    }

    function Of(kind: OperationType): Statistics {
      match kind
      case MetadataCalls => metadata
      case DataCalls => data
      case DirectoryCalls => directory
      case ExtAttrCalls => extAttr
      case SpecialCalls => special
    }

    lemma OfIsOf(kind: OperationType)
      requires Structured()
      ensures Of(kind) in Repr && IsOf(Of(kind), kind, Repr)
      ensures Of(kind).Contents() == SheetOf(Contents(), kind)
    {
    }

    lemma AllOf()
      requires Structured()
      ensures forall kind :: Of(kind) in Repr && IsOf(Of(kind), kind, Repr)
      ensures forall kind :: Of(kind).Contents() == SheetOf(Contents(), kind)
    {
      hide Structured, IsOf, Of;
      forall kind
        ensures Of(kind) in Repr && IsOf(Of(kind), kind, Repr)
        ensures Of(kind).Contents() == SheetOf(Contents(), kind)
      {
        OfIsOf(kind);
      }
    }

    /** An entry belongs to the statistics of one category only. */
    lemma EntryOfOne(kind: OperationType, other: OperationType, p: nat)
      requires Structured() && other != kind && p < Size(kind)
      ensures IsOf(Of(kind), kind, Repr) && Of(kind).entries[p] !in Of(other).entries
    {
      hide Structured, Of;
      OfIsOf(kind);
      OfIsOf(other);
      assert Of(kind).entries[p].owner == Of(kind);
    }

    /** Updates an entry of one of the statistics; the other four are left alone. */
    method Update(kind: OperationType, u: Update)
      requires Structured() && u.pos < Size(kind)
      modifies Repr
      ensures Structured()
      ensures forall other :: Of(other).Contents()
                == if other == kind then Apply(old(Of(kind).Contents()), u) else old(Of(other).Contents())
    {
      hide Apply, Of;
      AllOf();
      forall other | other != kind
        ensures Of(kind).entries[u.pos] !in Of(other).entries
      {
        EntryOfOne(kind, other, u.pos);
      }
      Of(kind).Perform(u);
    }

    method Post(kind: OperationType, u: Update)
      requires Valid() && u.pos < Size(kind)
      modifies this, Repr
      ensures Valid() && books == Changed(old(books), kind, u)
    {
      hide Apply, Structured, Of;
      AllOf();
      Update(kind, u);
      AllOf();
      books := Changed(books, kind, u);
      SameSheets(Contents(), books);
    }
  }

  method NewStatistics(identifier: string, kind: OperationType)
    returns (stats: Statistics, ghost repr: set<object>)
    ensures fresh(repr) && stats in repr && IsOf(stats, kind, repr)
    ensures Unused(stats)
  {
    stats := new Statistics(identifier, kind);
    assert forall i | 0 <= i < |stats.entries| :: stats.entries[i].Value() == stats.Contents()[i];
    repr := {stats as object} + set e: StatisticEntry | e in stats.entries :: e as object;
  }

  lemma IsOfGrows(stats: Statistics, kind: OperationType, repr: set<object>, larger: set<object>)
    requires IsOf(stats, kind, repr) && repr <= larger
    ensures IsOf(stats, kind, larger)
  {
  }

  ghost predicate Unused(stats: Statistics)
    reads stats, stats.entries
  {
    forall i | 0 <= i < |stats.entries| :: stats.entries[i].Value() == ZERO
  }

  ghost predicate IsOf(stats: Statistics, kind: OperationType, repr: set<object>)
    reads stats
  {
    && stats.Valid() && stats.kind == kind && stats.size == |stats.entries| == Size(kind)
    && forall e | e in stats.entries :: e in repr
  }
}
