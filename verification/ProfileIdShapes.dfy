/** Which ids of local profiles are accepted, said with the names that Windows reserves. */
module ProfileIdShapes {
  import opened Utf16
  import opened ProfileLabels
  import opened ProfileIds

  /** The reserved device names: con, prn, aux, nul, and com and lpt with a digit. */
  predicate ReservedName(name: string) {
    name in {"con", "prn", "aux", "nul"} || exists d :: '0' <= d <= '9' && (name == "com" + [d] || name == "lpt" + [d])
  }

  predicate Same(id: Text, name: string) {
    |id| == |name| && forall i :: 0 <= i < |id| ==> id[i] == name[i] as int
  }

  /** The id is the name, or the name with a dot and anything behind it. */
  ghost predicate Names(id: Text, name: string) {
    |name| <= |id| && Same(id[..|name|], name) && (|id| == |name| || id[|name|] == '.' as int)
  }

  predicate Letter(u: Unit) {
    'a' as int <= u <= 'z' as int || '0' as int <= u <= '9' as int
  }

  predicate Mark(u: Unit) {
    u == '.' as int || u == '_' as int || u == '-' as int
  }

  lemma {:induction false} BaseIsPrefix(id: Text)
    ensures Base(id) <= id && '.' as int !in Base(id) && (Base(id) == id || id[|Base(id)|] == '.' as int)
  {
    if id != [] && id[0] != 0x2E {
      BaseIsPrefix(id[1..]);
      assert Base(id) == [id[0]] + Base(id[1..]);
    }
  }

  lemma {:induction false} BaseEnds(id: Text, n: nat)
    requires n <= |id| && (n == |id| || id[n] == '.' as int) && forall i :: 0 <= i < n ==> id[i] != '.' as int
    ensures Base(id) == id[..n]
  {
    if n > 0 {
      BaseEnds(id[1..], n - 1);
      assert id[..n] == [id[0]] + id[1..][..n - 1];
    }
  }

  lemma ReservedIsNamed(base: Text) returns (name: string)
    requires IsReserved(base)
    ensures ReservedName(name) && Same(base, name)
  {
    if |base| == 4 {
      var d := base[3] as char;
      name := (if base[0] == 'c' as int then "com" else "lpt") + [d];
      assert base[0] == base[..3][0] && base[1] == base[..3][1] && base[2] == base[..3][2];
      assert '0' <= d <= '9' && (name == "com" + [d] || name == "lpt" + [d]);
    } else {
      name := if base[0] == 'c' as int then "con" else if base[0] == 'p' as int then "prn" else if base[0] == 'a' as int then "aux" else "nul";
    }
  }

  lemma NamedIsReserved(base: Text, name: string)
    requires ReservedName(name) && Same(base, name)
    ensures IsReserved(base) && '.' !in name
  {
    if |name| == 4 {
      assert base[..3] == [base[0], base[1], base[2]];
    } else {
      assert base == [base[0], base[1], base[2]];
    }
  }

  /** An id is reserved exactly when it stands for a reserved name. */
  lemma ReservedExactly(id: Text)
    ensures IsReserved(Base(id)) <==> exists name :: ReservedName(name) && Names(id, name)
  {
    BaseIsPrefix(id);
    if IsReserved(Base(id)) {
      var name := ReservedIsNamed(Base(id));
      assert id[..|name|] == Base(id);
      assert Names(id, name);
    }
    if name :| ReservedName(name) && Names(id, name) {
      NamedIsReserved(id[..|name|], name);
      forall i | 0 <= i < |name| ensures id[i] != '.' as int {
        assert id[i] == id[..|name|][i] && name[i] != '.';
      }
      BaseEnds(id, |name|);
    }
  }

  /**
   An id is accepted exactly when it has 1 to 64 lower-case letters, digits, dots, underscores and hyphens, begins with a
   letter or digit, does not end with a dot, and stands for no reserved name.
   */
  lemma ValidExactly(id: Text)
    ensures ValidId(id) <==>
            && 1 <= |id| <= 64 && Letter(id[0]) && id[|id| - 1] != '.' as int
            && (forall i :: 0 <= i < |id| ==> Letter(id[i]) || Mark(id[i]))
            && !exists name :: ReservedName(name) && Names(id, name)
  {
    ReservedExactly(id);
  }
}
