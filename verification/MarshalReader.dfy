/** The reader's loop (intern_rec) with its explicit stack, proved equal to the reading specification. */
module MarshalReader {
  import opened Bytes
  import opened MarshalFormat
  import opened MarshalHeap
  import opened MarshalMessage

  /** A request to read `count` values into consecutive destinations. */
  datatype Item = ReadRoot | ReadFields(a: int, next: int, count: int)

  predicate ItemOk(it: Item) {
    it.ReadFields? ==> 1 <= it.count
  }

  ghost predicate StackOk(stack: seq<Item>) {
    forall i :: 0 <= i < |stack| ==> ItemOk(stack[i])
  }

  ghost function Dests(it: Item): (ds: seq<Dest>)
    requires ItemOk(it)
  {
    match it
    case ReadRoot => [Root]
    case ReadFields(a, next, count) => seq(count, i => Slot(a, next + i))
  }

  /** The pending destinations of the stack, top first. */
  ghost function Flat(stack: seq<Item>): seq<Dest>
    requires StackOk(stack)
  {
    if stack == [] then []
    else
      assert ItemOk(stack[|stack| - 1]);
      Dests(stack[|stack| - 1]) + Flat(stack[..|stack| - 1])
  }

  function Target(it: Item): Dest {
    match it
    case ReadRoot => Root
    case ReadFields(a, next, _) => Slot(a, next)
  }

  function Popped(stack: seq<Item>): seq<Item>
    requires stack != []
  {
    var rest, it := stack[..|stack| - 1], stack[|stack| - 1];
    if it.ReadRoot? || it.count == 1 then rest else rest + [ReadFields(it.a, it.next + 1, it.count - 1)]
  }

  lemma FlatSnoc(stack: seq<Item>, it: Item)
    requires StackOk(stack) && ItemOk(it)
    ensures StackOk(stack + [it]) && Flat(stack + [it]) == Dests(it) + Flat(stack)
  {
    assert (stack + [it])[..|stack|] == stack;
  }

  lemma FlatTop(stack: seq<Item>)
    requires StackOk(stack) && stack != []
    ensures ItemOk(stack[|stack| - 1]) && StackOk(stack[..|stack| - 1])
    ensures Flat(stack) == Dests(stack[|stack| - 1]) + Flat(stack[..|stack| - 1])
  {
  }

  lemma FlatPopped(stack: seq<Item>)
    requires StackOk(stack) && stack != []
    ensures StackOk(Popped(stack))
    ensures Flat(stack) == [Target(stack[|stack| - 1])] + Flat(Popped(stack))
  {
    hide Flat, Dests, StackOk;
    var rest, it := stack[..|stack| - 1], stack[|stack| - 1];
    FlatTop(stack);
    if it.ReadFields? && it.count > 1 {
      var it' := ReadFields(it.a, it.next + 1, it.count - 1);
      assert Popped(stack) == rest + [it'];
      FlatSnoc(rest, it');
      DestsSplit(it);
      Assoc([Target(it)], Dests(it'), Flat(rest));
      assert Flat(Popped(stack)) == Dests(it') + Flat(rest);
    } else {
      assert Popped(stack) == rest;
      DestsSingle(it);
    }
  }

  lemma DestsSingle(it: Item)
    requires it.ReadFields? ==> it.count == 1
    ensures Dests(it) == [Target(it)]
  {
  }

  lemma DestsSplit(it: Item)
    requires it.ReadFields? && it.count > 1
    ensures Dests(it) == [Target(it)] + Dests(ReadFields(it.a, it.next + 1, it.count - 1))
  {
  }

  lemma Assoc<T>(a: seq<T>, b: seq<T>, c: seq<T>)
    ensures a + b + c == a + (b + c)
  {
  }

  class Intern {
    var src: seq<byte>
    var stack: seq<Item>
    var heap: Heap
    var root: Value
    var table: seq<int>
    var dest: int
    const recording: bool

    constructor (src: seq<byte>, recording: bool)
      ensures this.src == src && this.recording == recording
      ensures StackOk(stack) && View() == Initial()
    {
      this.src, this.recording := src, recording;
      stack, heap, root, table, dest := [ReadRoot], map[], Long(0), [], 0;
      new;
      assert Flat([ReadRoot]) == [Root];
    }

    /** The reading state of the specification. */
    ghost function View(): Reader
      reads this
      requires StackOk(stack)
    {
      Reader(Flat(stack), heap, root, table, dest)
    }

    method Store(d: Dest, v: Value)
      requires StackOk(stack)
      modifies `heap, `root
      ensures View() == Fill(old(View()).(pend := [d] + Flat(stack)), v)
    {
      hide Flat;
      assert ([d] + Flat(stack))[1..] == Flat(stack);
      match d {
        case Root => root := v;
        case Slot(a, i) =>
          if a in heap && heap[a].Fields? && 0 <= i < |heap[a].fs| {
            heap := heap[a := Fields(heap[a].tag, heap[a].fs[i := v])];
          }
      }
    }

    /** intern_alloc_obj, the object table and ReadItems for a block's fields, then the store. */
    method AllocateAndStore(d: Dest, b: Block)
      requires StackOk(stack)
      modifies `heap, `root, `table, `dest, `stack
      ensures StackOk(stack)
      ensures View() == FillNew(old(View()).(pend := [d] + Flat(old(stack))), recording, b)
    {
      hide Flat, Fill;
      var n := dest + 1;
      heap, dest := heap[n := b], dest + 1 + Wosize(b);
      if recording {
        table := table + [n];
      }
      if b.Fields? && |b.fs| > 0 {
        FlatSnoc(stack, ReadFields(n, 0, |b.fs|));
        stack := stack + [ReadFields(n, 0, |b.fs|)];
        assert Dests(ReadFields(n, 0, |b.fs|)) == Slots(n, b);
      } else {
        assert Slots(n, b) == [];
      }
      ghost var pend0 := [d] + Flat(old(stack));
      assert [d] + Flat(stack) == [pend0[0]] + Slots(n, b) + pend0[1..];
      Store(d, Ptr(n));
    }

    /** One iteration on a decoded token: false on a reference outside the table. */
    method Step(d: Dest, t: Token) returns (ok: bool)
      requires StackOk(stack)
      modifies `heap, `root, `table, `dest, `stack
      ensures StackOk(stack)
      ensures ok <==> Apply(old(View()).(pend := [d] + Flat(old(stack))), recording, t).Some?
      ensures ok ==> Some(View()) == Apply(old(View()).(pend := [d] + Flat(old(stack))), recording, t)
    {
      hide Flat, Fill, FillNew;
      ok := true;
      match t
      case TInt(n) => Store(d, Long(n));
      case THeader(size, tag) =>
        if size == 0 {
          Store(d, Atom(tag));
        } else if tag == OBJECT_TAG {
          ok := false;
        } else {
          AllocateAndStore(d, Fields(tag, seq(size, _ => Long(0))));
        }
      case TShared(ofs) =>
        if recording && 1 <= ofs <= |table| {
          Store(d, Ptr(table[|table| - ofs]));
        } else {
          ok := false;
        }
      case TString(s) => AllocateAndStore(d, Str(s));
      case TDouble(x) => AllocateAndStore(d, Dbl(x));
      case TDoubleArray(ds) => AllocateAndStore(d, Dbls(ds));
    }

    /** intern_rec: reads until the stack is empty. */
    method InternRec(host: Host) returns (ok: bool)
      requires StackOk(stack)
      modifies this
      ensures StackOk(stack)
      ensures ReadAll(host, old(View()), recording, old(src)) == if ok then Some((View(), src)) else None
      ensures ok ==> View().pend == []
    {
      hide Flat, Apply, Decode;
      while stack != []
        invariant StackOk(stack)
        invariant ReadAll(host, old(View()), recording, old(src)) == ReadAll(host, View(), recording, src)
        decreases |src|
      {
        FlatPopped(stack);
        var d := Target(stack[|stack| - 1]);
        ghost var before := View();
        stack := Popped(stack);
        assert before == View().(pend := [d] + Flat(stack));
        match Decode(host, src)
        case None => return false;
        case Some((t, k)) =>
          var applied := Step(d, t);
          if !applied {
            return false;
          }
          src := src[k..];
      }
      assert View().pend == [] by { FlatEmpty(); }
      ok := true;
    }
  }

  lemma FlatEmpty()
    ensures Flat([]) == []
  {
  }

  /** caml_input_val_from_bytes: parse the header, check the length, allocate the table, read. */
  method InputValue(host: Host, msg: seq<byte>) returns (r: Option<Reader>)
    ensures r == Unmarshal(host, msg)
  {
    hide ParseHeader, ReadAll;
    var header := ParseHeader(msg);
    if header.None? {
      return None;
    }
    var hd := header.value;
    if |msg| < hd.length + hd.dataLen {
      return None;
    }
    var s := new Intern(msg[hd.length..], hd.words > 0 && hd.objects > 0);
    var ok := s.InternRec(host);
    return if ok then Some(Reader([], s.heap, s.root, s.table, s.dest)) else None;
  }
}
