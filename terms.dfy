/** Terms of the host runtime as the native extension sees them, and the marshalling
    helpers of c_src/chuffed_solver.cpp:83-116. A binary's bytes are a `seq<char>`, as the
    `std::string` the helpers copy them into. */
module Terms {
  import opened Wrappers
  import opened Handles

  datatype Term =
    | Atom(name: string)
    | Binary(bytes: string)
    /** An integer, such as one element of a character list. */
    | Int(value: int)
    /** A character list, the proper list of character codes `enif_make_string` builds. */
    | CharList(chars: string)
    | Tuple2(first: Term, second: Term)
    /** A list cell `[head | tail]`; a proper list ends in `Nil`. */
    | Cons(head: Term, tail: Term)
    | Nil
    /** A resource term wrapping a solver handle. */
    | Resource(handle: SolverHandle)
    /** Any other kind of term (floats, pids, references, ...). */
    | Other

  function OkTuple(payload: Term): Term { Tuple2(Atom("ok"), payload) }

  function ErrorTuple(reason: Term): Term { Tuple2(Atom("error"), reason) }

  /** `get_binary`: the bytes of a binary term, or nothing for any other term. */
  function GetBinary(t: Term): (r: Option<string>)
    ensures r.Some? <==> t.Binary?
    ensures r.Some? ==> t == Binary(r.value)
  {
    if t.Binary? then Some(t.bytes) else None
  }

  /** `make_binary`: a fresh binary holding `s`, or the bare atom `error` when the host
      cannot allocate it. */
  function MakeBinary(s: string, allocOk: bool): (t: Term)
    ensures allocOk ==> GetBinary(t) == Some(s)
    ensures !allocOk ==> t == Atom("error")
  {
    if allocOk then Binary(s) else Atom("error")
  }

  /** How many cells a walk along the tails of `t` visits. */
  function ListLength(t: Term): nat
  {
    match t
    case Cons(_, tail) => 1 + ListLength(tail)
    case CharList(cs) => |cs|
    case _ => 0
  }

  /** `enif_get_list_cell`: the head and tail of a list cell. A non-empty character list
      splits into the code of its first character and the list of the rest; the empty list,
      an empty character list and every other term have no cell. */
  function ListCell(t: Term): (r: Option<(Term, Term)>)
    ensures r.Some? <==> ListLength(t) > 0
    ensures r.Some? ==> ListLength(r.value.1) == ListLength(t) - 1
    ensures t.Cons? ==> r == Some((t.head, t.tail))
    ensures t.CharList? && r.Some? ==> r.value.0 == Int(t.chars[0] as int)
  {
    match t
    case Cons(head, tail) => Some((head, tail))
    case CharList(cs) => if cs == [] then None else Some((Int(cs[0] as int), CharList(cs[1..])))
    case _ => None
  }

  /** The heads `enif_get_list_cell` visits by following tails while the term is a list
      cell; an improper tail or a non-list term ends the walk. */
  function Cells(list: Term): (r: seq<Term>)
    decreases ListLength(list)
    ensures |r| == ListLength(list)
  {
    match ListCell(list)
    case None => []
    case Some((head, tail)) => [head] + Cells(tail)
  }

  /** A non-empty character list is no list of binaries: its first cell holds an integer,
      so `get_string_list` gives up there with nothing collected. */
  lemma CharListIsNoStringList(s: string)
    requires s != []
    ensures Cells(CharList(s))[0] == Int(s[0] as int)
    ensures LeadingBinaries(Cells(CharList(s))) == []
  {
  }

  /** The bytes of the binaries that open `xs`, up to the first element that is not one. */
  function LeadingBinaries(xs: seq<Term>): (r: seq<string>)
    ensures |r| <= |xs|
    ensures forall i :: 0 <= i < |r| ==> xs[i] == Binary(r[i])
    ensures |r| < |xs| ==> !xs[|r|].Binary?
  {
    if xs == [] || !xs[0].Binary? then [] else [xs[0].bytes] + LeadingBinaries(xs[1..])
  }

  /** `get_string_list`: clears the result, then appends each binary element in list order;
      it gives up at the first element that is not a binary, keeping what it appended. */
  method GetStringList(list: Term) returns (ok: bool, result: seq<string>)
    ensures ok <==> forall i :: 0 <= i < |Cells(list)| ==> Cells(list)[i].Binary?
    ensures result == LeadingBinaries(Cells(list))
    ensures ok ==> |result| == |Cells(list)|
  {
    var tail := list;
    result := [];
    ghost var seen: seq<Term> := [];
    var cell := ListCell(tail);
    while cell.Some?
      invariant cell == ListCell(tail)
      invariant Cells(list) == seen + Cells(tail)
      invariant result == LeadingBinaries(seen) && |result| == |seen|
      decreases ListLength(tail)
    {
      var head, next := cell.value.0, cell.value.1;
      var str := GetBinary(head);
      if str.None? {
        break;
      }
      WalkStep(list, seen, tail, str.value);
      result := result + [str.value];
      seen := seen + [head];
      tail := next;
      cell := ListCell(tail);
    }
    ok := cell.None?;
    WalkEnd(list, seen, tail);
  }

  /** One step of the walk over a binary cell: the cell moves from the rest to the prefix,
      and its bytes join the collected strings. */
  lemma WalkStep(list: Term, seen: seq<Term>, tail: Term, b: string)
    requires Cells(list) == seen + Cells(tail)
    requires |LeadingBinaries(seen)| == |seen|
    requires ListCell(tail).Some? && ListCell(tail).value.0 == Binary(b)
    ensures Cells(list) == (seen + [Binary(b)]) + Cells(ListCell(tail).value.1)
    ensures LeadingBinaries(seen + [Binary(b)]) == LeadingBinaries(seen) + [b]
  {
    CellsStep(tail);
    LeadingBinariesSnoc(seen, b);
  }

  /** Where the walk stops, at the end or at a cell that is no binary, the strings collected
      are the leading binaries of all the cells, and they are all of them exactly when the
      walk reached the end. */
  lemma WalkEnd(list: Term, seen: seq<Term>, tail: Term)
    requires Cells(list) == seen + Cells(tail)
    requires |LeadingBinaries(seen)| == |seen|
    requires ListCell(tail).Some? ==> !ListCell(tail).value.0.Binary?
    ensures LeadingBinaries(Cells(list)) == LeadingBinaries(seen)
    ensures (forall i :: 0 <= i < |Cells(list)| ==> Cells(list)[i].Binary?) <==> ListCell(tail).None?
  {
    if ListCell(tail).Some? {
      CellsStep(tail);
    }
    LeadingBinariesStop(seen, Cells(tail));
    AllBinaries(seen, Cells(tail));
  }

  /** Past an all-binary prefix that stops at a non-binary, or at the end, every element is
      a binary exactly when nothing follows the prefix. */
  lemma AllBinaries(xs: seq<Term>, rest: seq<Term>)
    requires |LeadingBinaries(xs)| == |xs|
    requires rest != [] ==> !rest[0].Binary?
    ensures (forall i :: 0 <= i < |xs + rest| ==> (xs + rest)[i].Binary?) <==> rest == []
  {
    if rest != [] {
      assert (xs + rest)[|xs|] == rest[0];
    }
  }

  /** A walk that finds a cell visits its head, then the cells of its tail. */
  lemma CellsStep(t: Term)
    requires ListCell(t).Some?
    ensures Cells(t) == [ListCell(t).value.0] + Cells(ListCell(t).value.1)
  {
  }

  /** Appending a binary to an all-binary prefix appends its bytes. */
  lemma {:induction false} LeadingBinariesSnoc(xs: seq<Term>, b: string)
    requires |LeadingBinaries(xs)| == |xs|
    ensures LeadingBinaries(xs + [Binary(b)]) == LeadingBinaries(xs) + [b]
  {
    if xs != [] {
      assert (xs + [Binary(b)])[1..] == xs[1..] + [Binary(b)];
      LeadingBinariesSnoc(xs[1..], b);
    }
  }

  /** Past an all-binary prefix the walk stops at the first non-binary element, if any. */
  lemma {:induction false} LeadingBinariesStop(xs: seq<Term>, rest: seq<Term>)
    requires |LeadingBinaries(xs)| == |xs|
    requires rest != [] ==> !rest[0].Binary?
    ensures LeadingBinaries(xs + rest) == LeadingBinaries(xs)
  {
    if xs != [] {
      assert (xs + rest)[1..] == xs[1..] + rest;
      LeadingBinariesStop(xs[1..], rest);
    }
  }
}
