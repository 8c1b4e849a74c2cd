/** memTree.updateAccess: giving one entry a new stamp and repairing the
    tournament on the way up. */
module MemUpdate {
  import opened MemTree

  /** The rest of the climb from a cell that is to receive stamp a, where oa is
      the stamp the entry had before. */
  function Climb(ns: Nodes, c: Cell, oa: nat, a: nat): (ns': Nodes)
    requires ValidClimb(ns, c)
    ensures ns'.Keys == ns.Keys
    decreases |c.path|, c.i
  {
    if V(ns, c) != oa then ns
    else
      var n1 := Set(ns, c, a);
      if c == ROOT then n1
      else
        var a' := Lower(V(n1, Sib(c)), a);
        SetKeepsClimb(ns, Up(c), c, a);
        Climb(n1, Up(c), oa, a')
  }

  /** Every cell from c up to the root exists. */
  predicate ValidClimb(ns: Nodes, c: Cell)
    decreases |c.path|, c.i
  {
    && c.path in ns && c.i < |ns[c.path].access|
    && (c != ROOT ==> ValidClimb(ns, Up(c)))
  }

  /** One round of the loop of updateAccess. */
  lemma ClimbStep(ns: Nodes, c: Cell, oa: nat, a: nat)
    requires ValidClimb(ns, c) && V(ns, c) == oa && c != ROOT
    ensures var n1 := Set(ns, c, a);
            && ValidClimb(n1, Up(c)) && Up(c).path in n1 && Up(c).i < |n1[Up(c).path].access|
            && Climb(ns, c, oa, a) == Climb(n1, Up(c), oa, Lower(V(n1, Sib(c)), a))
  {
    SetKeepsClimb(ns, Up(c), c, a);
  }

  lemma {:induction false} ShapeClimb(ns: Nodes, c: Cell)
    requires Shape(ns) && c.path in ns && c.i < Width(c.path) - 1
    ensures ValidClimb(ns, c)
    decreases |c.path|, c.i
  {
    NodeIsCell(ns, c);
    if c != ROOT {
      ShapeClimb(ns, Up(c));
    }
  }

  lemma {:induction false} SetKeepsClimb(ns: Nodes, c: Cell, d: Cell, v: nat)
    requires ValidClimb(ns, c)
    requires d.path in ns && d.i < |ns[d.path].access|
    ensures ValidClimb(Set(ns, d, v), c)
    decreases |c.path|, c.i
  {
    if c != ROOT {
      SetKeepsClimb(ns, Up(c), d, v);
    }
  }

  /** What the climb may rely on about the new stamp. */
  ghost predicate Dominates(ns: Nodes, oa: nat, a: nat) {
    && a != 0
    && (oa != 0 ==> oa <= a)
    && (oa == 0 ==> forall d: Cell {:trigger V(ns, d)} :: V(ns, d) <= a)
  }

  ghost predicate ClimbReady(ns: Nodes, c: Cell, oa: nat, a: nat) {
    && Shape(ns) && c.path in ns && c.i < Width(c.path) - 1
    && (IsEntry(ns, c.path) ==> c.i == 0)
    && AllOkBut(ns, {c})
    && (Inner(ns, c) ==> a == MinNZ(V(ns, Left(c)), V(ns, Right(c))))
    && (V(ns, c) != oa ==> V(ns, c) == a)
    && Dominates(ns, oa, a)
  }

  /** After the write only the equation of the cell above may be broken. */
  lemma WriteOk(ns: Nodes, c: Cell, oa: nat, a: nat)
    requires ClimbReady(ns, c, oa, a) && c.i < |ns[c.path].access|
    ensures Shape(Set(ns, c, a))
    ensures c == ROOT ==> AllOk(Set(ns, c, a))
    ensures c != ROOT ==> AllOkBut(Set(ns, c, a), {Up(c)})
  {
    var n1 := Set(ns, c, a);
    SetShape(ns, c, a);
    SetFrame(ns, c, a, {c});
    if Inner(n1, c) {
      WrittenCellOk(ns, c, a);
    }
    hide Left, Right, Up, Ok, Width, Set, Shape;
    assert forall d :: d in {c} + {c} ==> d == c;
    if c != ROOT {
      assert forall d :: d in {c} + {c, Up(c)} ==> d == c || d == Up(c);
    }
  }

  lemma WrittenCellOk(ns: Nodes, c: Cell, a: nat)
    requires Shape(ns) && Inner(ns, c) && c.i < |ns[c.path].access|
    requires a == MinNZ(V(ns, Left(c)), V(ns, Right(c)))
    ensures Ok(Set(ns, c, a), c)
  {
    NodeIsCell(ns, c);
    LeftUp(c);
    RightUp(c);
  }

  function Lower(aa: nat, a: nat): nat {
    if aa != 0 && aa < a then aa else a
  }

  /** The cell above, before the write at c is taken into account. */
  lemma AboveBefore(ns: Nodes, c: Cell, oa: nat, a: nat)
    requires ClimbReady(ns, c, oa, a) && c != ROOT
    ensures Inner(ns, Up(c)) && V(ns, Up(c)) == MinNZ(V(ns, c), V(ns, Sib(c)))
    ensures Sib(c) != c && Up(c) != c
  {
    NodeIsCell(ns, c);
    UpFamily(c);
    assert Inner(ns, Up(c));
    assert Ok(ns, Up(c));
  }

  lemma AboveAfter(ns: Nodes, c: Cell, oa: nat, a: nat)
    requires ClimbReady(ns, c, oa, a) && c != ROOT && c.i < |ns[c.path].access| && V(ns, c) == oa
    ensures var n1 := Set(ns, c, a);
            var a' := Lower(V(n1, Sib(c)), a);
            && Inner(n1, Up(c)) && a' == MinNZ(V(n1, Left(Up(c))), V(n1, Right(Up(c))))
            && (V(n1, Up(c)) != oa ==> V(n1, Up(c)) == a')
  {
    AboveBefore(ns, c, oa, a);
    NodeIsCell(ns, c);
    UpFamily(c);
    hide Left, Right, Up, Sib, Ok, Width, Shape, AllOkBut;
  }

  lemma NextDominates(ns: Nodes, c: Cell, oa: nat, a: nat)
    requires ClimbReady(ns, c, oa, a) && c != ROOT && c.i < |ns[c.path].access| && V(ns, c) == oa
    requires V(ns, Up(c)) == oa
    ensures Dominates(Set(ns, c, a), oa, Lower(V(Set(ns, c, a), Sib(c)), a))
  {
    AboveBefore(ns, c, oa, a);
    hide Left, Right, Up, Sib, Ok, Width, Shape, AllOkBut;
    forall d: Cell
      ensures V(Set(ns, c, a), d) == if d == c then a else V(ns, d)
    {
    }
  }

  /** The climb restores the tournament: it may stop early because a cell that
      does not carry the old stamp already has its final value. */
  lemma {:induction false} ClimbOk(ns: Nodes, c: Cell, oa: nat, a: nat)
    requires ClimbReady(ns, c, oa, a) && ValidClimb(ns, c)
    ensures AllOk(Climb(ns, c, oa, a))
    decreases |c.path|, c.i
  {
    if V(ns, c) == oa {
      WriteOk(ns, c, oa, a);
      if c != ROOT {
        var n1 := Set(ns, c, a);
        var a' := Lower(V(n1, Sib(c)), a);
        SetKeepsClimb(ns, Up(c), c, a);
        AboveBefore(ns, c, oa, a);
        AboveAfter(ns, c, oa, a);
        NodeIsCell(ns, c);
        if V(n1, Up(c)) == oa {
          NextDominates(ns, c, oa, a);
          ClimbOk(n1, Up(c), oa, a');
        } else {
          assert AllOkBut(n1, {Up(c)});
          assert Ok(n1, Up(c));
        }
      }
    } else {
      StoppedOk(ns, c, a);
    }
  }

  lemma StoppedOk(ns: Nodes, c: Cell, a: nat)
    requires c.i < Width(c.path) - 1
    requires AllOkBut(ns, {c}) && V(ns, c) == a
    requires Inner(ns, c) ==> a == MinNZ(V(ns, Left(c)), V(ns, Right(c)))
    ensures AllOk(ns)
  {
    forall d: Cell | Inner(ns, d)
      ensures Ok(ns, d)
    {
    }
  }

  /** Only stamps change, and below the starting node nothing at all. */
  lemma {:induction false} ClimbFrame(ns: Nodes, c: Cell, oa: nat, a: nat)
    requires Shape(ns) && c.path in ns && c.i < Width(c.path) - 1 && ValidClimb(ns, c)
    requires IsEntry(ns, c.path) ==> c.i == 0
    ensures var ns' := Climb(ns, c, oa, a);
            && Shape(ns') && OnlyStamps(ns, ns', c.path)
            && forall q {:trigger ns'[q]} :: q in ns && |q| > |c.path| ==> ns'[q] == ns[q]
    decreases |c.path|, c.i
  {
    if V(ns, c) == oa {
      SetShape(ns, c, a);
      if c != ROOT {
        var n1 := Set(ns, c, a);
        NodeIsCell(ns, c);
        SetKeepsClimb(ns, Up(c), c, a);
        ClimbFrame(n1, Up(c), oa, Lower(V(n1, Sib(c)), a));
        ComposeFrame(ns, n1, Climb(ns, c, oa, a), c.path, Up(c).path);
      }
    }
  }

  lemma ComposeFrame(ns: Nodes, n1: Nodes, n2: Nodes, p: Path, u: Path)
    requires OnlyStamps(ns, n1, p) && OnlyStamps(n1, n2, u)
    requires u == p || (u in ns && !IsEntry(ns, u))
    ensures OnlyStamps(ns, n2, p)
  {
    forall q | IsEntry(ns, q) && q != p
      ensures n2[q] == ns[q]
    {
      assert IsEntry(n1, q);
    }
  }

  lemma {:induction false} ClimbBound(ns: Nodes, c: Cell, oa: nat, a: nat, bound: nat)
    requires ValidClimb(ns, c)
    requires a <= bound && forall d: Cell {:trigger V(ns, d)} :: V(ns, d) <= bound
    ensures forall d: Cell {:trigger V(Climb(ns, c, oa, a), d)} :: V(Climb(ns, c, oa, a), d) <= bound
    decreases |c.path|, c.i
  {
    if V(ns, c) == oa {
      var n1 := Set(ns, c, a);
      assert forall d: Cell {:trigger V(n1, d)} :: V(n1, d) == if d == c then a else V(ns, d);
      if c != ROOT {
        SetKeepsClimb(ns, Up(c), c, a);
        ClimbBound(n1, Up(c), oa, Lower(V(n1, Sib(c)), a), bound);
      }
    }
  }

  lemma SetSame(ns: Nodes, c: Cell)
    requires c.path in ns && c.i < |ns[c.path].access|
    ensures Set(ns, c, V(ns, c)) == ns
  {
    var n := ns[c.path];
    assert n.access[c.i := V(ns, c)] == n.access;
    assert n.(access := n.access) == n;
  }

  /** Moving an entry whose stamp is zero writes nothing. */
  lemma {:induction false} ClimbZero(ns: Nodes, c: Cell)
    requires ValidClimb(ns, c)
    ensures Climb(ns, c, 0, 0) == ns
    decreases |c.path|, c.i
  {
    if V(ns, c) == 0 {
      SetSame(ns, c);
      if c != ROOT {
        ClimbZero(ns, Up(c));
      }
    }
  }

  /** updateAccess on an entry: its stamp becomes a, no other entry is touched
      and the tournament is right again. */
  lemma UpdateEntry(ns: Nodes, p: Path, a: nat)
    requires Shape(ns) && AllOk(ns) && IsEntry(ns, p)
    requires a != 0 && forall d: Cell {:trigger V(ns, d)} :: V(ns, d) <= a
    ensures Cell(p, 0).i < Width(p) - 1 && ValidClimb(ns, Cell(p, 0))
    ensures var ns' := Climb(ns, Cell(p, 0), V(ns, Cell(p, 0)), a);
            && Shape(ns') && AllOk(ns') && OnlyStamps(ns, ns', p)
            && ns'[p] == ns[p].(access := ns[p].access[0 := a])
            && forall d: Cell {:trigger V(ns', d)} :: V(ns', d) <= a
  {
    var c := Cell(p, 0);
    var oa := V(ns, c);
    ShapeClimb(ns, c);
    assert AllOkBut(ns, {c});
    ClimbOk(ns, c, oa, a);
    ClimbFrame(ns, c, oa, a);
    ClimbBound(ns, c, oa, a, a);
    assert NodeOk(ns, p);
    var n1 := Set(ns, c, a);
    SetShape(ns, c, a);
    NodeIsCell(ns, c);
    SetKeepsClimb(ns, Up(c), c, a);
    ClimbFrame(n1, Up(c), oa, Lower(V(n1, Sib(c)), a));
  }
}
