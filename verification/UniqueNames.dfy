/** Names made unique by a counter: the preferred name, then the name with 1, 2, 3, ... appended. */
module UniqueNames {

  const DIGITS := "0123456789"

  function Decimal(n: nat): (s: string)
    ensures |s| > 0
  {
    if n < 10 then [DIGITS[n]] else Decimal(n / 10) + [DIGITS[n % 10]]
  }

  lemma {:induction false} DecimalInjective(m: nat, n: nat)
    requires Decimal(m) == Decimal(n)
    ensures m == n
  {
    var s, t := Decimal(m), Decimal(n);
    assert s[|s| - 1] == DIGITS[m % 10] && t[|t| - 1] == DIGITS[n % 10];
    if m >= 10 && n >= 10 {
      assert s[..|s| - 1] == Decimal(m / 10) && t[..|t| - 1] == Decimal(n / 10);
      DecimalInjective(m / 10, n / 10);
    }
  }

  function Candidate(base: string, separator: string, i: nat): string
  {
    if i == 0 then base else base + separator + Decimal(i)
  }

  lemma CandidateInjective(base: string, separator: string, i: nat, j: nat)
    requires Candidate(base, separator, i) == Candidate(base, separator, j)
    ensures i == j
  {
    hide Decimal;
    assert i > 0 ==> |Candidate(base, separator, i)| > |base|;
    assert j > 0 ==> |Candidate(base, separator, j)| > |base|;
    if i > 0 && j > 0 {
      var n := |base + separator|;
      assert Candidate(base, separator, i)[n..] == Decimal(i);
      assert Candidate(base, separator, j)[n..] == Decimal(j);
      DecimalInjective(i, j);
    }
  }

  // All names before the i-th are taken.
  ghost predicate TakenBefore(base: string, separator: string, reserved: set<string>, i: nat)
  {
    forall j: nat :: j < i ==> Candidate(base, separator, j) in reserved
  }

  // A finite set cannot hold all of them.
  lemma {:induction false} TakenAreFew(base: string, separator: string, reserved: set<string>, i: nat)
    requires TakenBefore(base, separator, reserved, i)
    ensures i <= |reserved|
    decreases i
  {
    hide Candidate;
    if i > 0 {
      var rest := reserved - {Candidate(base, separator, i - 1)};
      forall j: nat | j < i - 1 ensures Candidate(base, separator, j) in rest {
        if Candidate(base, separator, j) == Candidate(base, separator, i - 1) {
          CandidateInjective(base, separator, j, i - 1);
        }
      }
      TakenAreFew(base, separator, rest, i - 1);
    }
  }

  // The first name that is free, counting from the i-th.
  function FirstFree(base: string, separator: string, reserved: set<string>, i: nat): (r: nat)
    requires TakenBefore(base, separator, reserved, i)
    ensures i <= r && TakenBefore(base, separator, reserved, r) && Candidate(base, separator, r) !in reserved
    decreases |reserved| - i + 1
  {
    TakenAreFew(base, separator, reserved, i);
    if Candidate(base, separator, i) !in reserved then i
    else
      TakenAreFew(base, separator, reserved, i + 1);
      FirstFree(base, separator, reserved, i + 1)
  }

  lemma OneFirstFree(base: string, separator: string, reserved: set<string>, i: nat, j: nat)
    requires TakenBefore(base, separator, reserved, i) && Candidate(base, separator, i) !in reserved
    requires TakenBefore(base, separator, reserved, j) && Candidate(base, separator, j) !in reserved
    ensures i == j
  {
    hide Candidate;
  }

  // The specification: each preferred name is probed from the start.
  function Names(preferred: seq<string>, reserved: set<string>): (r: seq<string>)
    ensures |r| == |preferred|
  {
    if preferred == [] then []
    else
      var name := Candidate(preferred[0], "_", FirstFree(preferred[0], "_", reserved, 0));
      [name] + Names(preferred[1..], reserved + {name})
  }

  function Elements<T>(s: seq<T>): set<T> { set x | x in s }

  /** The names are new and pairwise distinct, and each is its preferred name with the least suffix that neither an
      existing child nor an earlier name has. */
  lemma {:induction false} NamesAreUnique(preferred: seq<string>, reserved: set<string>, k: nat)
    requires k < |preferred|
    ensures var names := Names(preferred, reserved);
            && names[k] !in reserved + Elements(names[..k])
            && exists i: nat :: names[k] == Candidate(preferred[k], "_", i) &&
                 TakenBefore(preferred[k], "_", reserved + Elements(names[..k]), i)
    decreases k
  {
    hide Candidate;
    var names := Names(preferred, reserved);
    if k == 0 {
      var i := FirstFree(preferred[0], "_", reserved, 0);
      assert names[0] == Candidate(preferred[0], "_", i);
      assert reserved + Elements(names[..0]) == reserved;
    } else {
      NamesAreUnique(preferred[1..], reserved + {names[0]}, k - 1);
      var rest := names[1..];
      assert names[..k] == [names[0]] + rest[..k - 1];
      assert reserved + Elements(names[..k]) == reserved + {names[0]} + Elements(rest[..k - 1]);
    }
  }

  lemma {:induction false} NamesOneMore(preferred: seq<string>, name: string, reserved: set<string>)
    ensures var names := Names(preferred, reserved);
            var reserved' := reserved + Elements(names);
            Names(preferred + [name], reserved) == names + [Candidate(name, "_", FirstFree(name, "_", reserved', 0))]
    decreases |preferred|
  {
    hide Candidate, TakenBefore, FirstFree;
    var names := Names(preferred, reserved);
    if preferred == [] {
      assert reserved + Elements(names) == reserved;
      assert (preferred + [name])[1..] == [];
    } else {
      NamesOneMore(preferred[1..], name, reserved + {names[0]});
      assert (preferred + [name])[1..] == preferred[1..] + [name];
      assert reserved + Elements(names) == reserved + {names[0]} + Elements(names[1..]);
    }
  }

  // The cached counter may be passed over: the base name and everything up to it are taken.
  ghost predicate Skippable(base: string, reserved: set<string>, index: nat)
  {
    index > 0 ==> TakenBefore(base, "_", reserved, index + 1)
  }

  ghost predicate CacheRight(startIndices: map<string, nat>, reserved: set<string>)
  {
    forall base :: base in startIndices ==> Skippable(base, reserved, startIndices[base])
  }

  lemma SkippableKept(base: string, reserved: set<string>, reserved': set<string>, index: nat)
    requires Skippable(base, reserved, index) && reserved <= reserved'
    ensures Skippable(base, reserved', index)
  {
  }

  method FindName(base: string, reserved: set<string>, start: nat) returns (name: string, index: nat)
    requires Skippable(base, reserved, start)
    ensures name == Candidate(base, "_", FirstFree(base, "_", reserved, 0))
    ensures Skippable(base, reserved + {name}, index)
  {
    name, index := base, start;
    if name in reserved {
      index := index + 1;
      name := base + "_" + Decimal(index);
      while name in reserved
        invariant index > 0 && name == Candidate(base, "_", index) && TakenBefore(base, "_", reserved, index)
        decreases |reserved| - index
      {
        TakenAreFew(base, "_", reserved, index + 1);
        index := index + 1;
        name := base + "_" + Decimal(index);
      }
      OneFirstFree(base, "_", reserved, index, FirstFree(base, "_", reserved, 0));
    } else {
      OneFirstFree(base, "_", reserved, 0, FirstFree(base, "_", reserved, 0));
    }
  }

  lemma CacheMore(startIndices: map<string, nat>, reserved: set<string>, base: string, name: string, index: nat)
    requires CacheRight(startIndices, reserved) && Skippable(base, reserved + {name}, index)
    ensures CacheRight(startIndices[base := index], reserved + {name})
  {
    hide Skippable;
    forall b | b in startIndices ensures Skippable(b, reserved + {name}, startIndices[b]) {
      SkippableKept(b, reserved, reserved + {name}, startIndices[b]);
    }
  }

  lemma CacheStart(startIndices: map<string, nat>, reserved: set<string>, base: string)
    requires CacheRight(startIndices, reserved)
    ensures Skippable(base, reserved, if base in startIndices then startIndices[base] else 0)
  {
  }

  lemma NoNames(existing: set<string>)
    ensures Names([], existing) == [] && Elements<string>([]) == {} && CacheRight(map[], existing)
  {
  }

  lemma ElementsMore<T>(s: seq<T>, x: T)
    ensures Elements(s + [x]) == Elements(s) + {x}
  {
  }

  /** The bulk version with a counter remembered for every base name gives the names of plain probing. */
  method UniqueChildNames(existing: set<string>, preferred: seq<string>) returns (names: seq<string>)
    ensures names == Names(preferred, existing)
  {
    hide Skippable, CacheRight, Candidate, FirstFree, Names, Elements;
    names := [];
    var reserved := existing;
    NoNames(existing);
    var startIndices: map<string, nat> := map[];
    for k := 0 to |preferred|
      invariant names == Names(preferred[..k], existing)
      invariant reserved == existing + Elements(names)
      invariant CacheRight(startIndices, reserved)
    {
      var base := preferred[k];
      CacheStart(startIndices, reserved, base);
      var name, index := FindName(base, reserved, if base in startIndices then startIndices[base] else 0);
      NamesOneMore(preferred[..k], base, existing);
      assert preferred[..k + 1] == preferred[..k] + [base];
      ElementsMore(names, name);
      CacheMore(startIndices, reserved, base, name, index);
      names := names + [name];
      reserved := reserved + {name};
      startIndices := startIndices[base := index];
    }
    assert preferred[..|preferred|] == preferred;
  }

  // ---------- How names are written ----------

  predicate IsDigit(c: char) { '0' <= c <= '9' }

  // The number that the digits stand for.
  function ValueOf(s: string): nat
    requires forall k :: 0 <= k < |s| ==> IsDigit(s[k])
  {
    if s == [] then 0
    else
      assert IsDigit(s[|s| - 1]);
      10 * ValueOf(s[..|s| - 1]) + (s[|s| - 1] - '0') as nat
  }

  // The digits of the number, the first of which is no zero.
  ghost predicate Writes(s: string, n: nat)
  {
    s != [] && (forall k :: 0 <= k < |s| ==> IsDigit(s[k])) && ValueOf(s) == n && (n > 0 ==> s[0] != '0')
  }

  lemma DigitIs(n: nat)
    requires n < 10
    ensures IsDigit(DIGITS[n]) && (DIGITS[n] - '0') as nat == n && (n > 0 ==> DIGITS[n] != '0')
  {
    assert DIGITS[n] == ['0', '1', '2', '3', '4', '5', '6', '7', '8', '9'][n];
  }

  lemma {:induction false} DecimalWrites(n: nat)
    ensures Writes(Decimal(n), n)
  {
    if n < 10 {
      DigitIs(n);
      assert Decimal(n)[..0] == [];
    } else {
      DecimalWrites(n / 10);
      DigitIs(n % 10);
      var s := Decimal(n);
      assert s[..|s| - 1] == Decimal(n / 10);
    }
  }

  // The preferred name, or this with an underscore and a positive number.
  ghost predicate Spells(name: string, base: string, i: nat)
  {
    if i == 0 then name == base else exists digits :: Writes(digits, i) && name == base + "_" + digits
  }

  lemma CandidateSpells(base: string, i: nat)
    ensures Spells(Candidate(base, "_", i), base, i)
  {
    hide Decimal, Writes;
    if i > 0 {
      DecimalWrites(i);
    }
  }

  // A name is taken by a child there is, or by an earlier name.
  ghost predicate Taken(base: string, i: nat, reserved: set<string>, earlier: seq<string>)
  {
    exists taken :: Spells(taken, base, i) && (taken in reserved || taken in earlier)
  }

  /** Every name is new, and the first of the preferred name and its numbered forms, from 1 upwards, that is: all before it
      in this list are taken. */
  lemma NamesAreNumbered(preferred: seq<string>, reserved: set<string>, k: nat)
    requires k < |preferred|
    ensures var names := Names(preferred, reserved);
            && names[k] !in reserved && (forall j :: 0 <= j < k ==> names[j] != names[k])
            && exists i: nat ::
                 Spells(names[k], preferred[k], i)
                 && forall j: nat :: j < i ==> Taken(preferred[k], j, reserved, names[..k])
  {
    var names := Names(preferred, reserved);
    NamesAreUnique(preferred, reserved, k);
    hide Names, Candidate, Spells;
    var i: nat :| names[k] == Candidate(preferred[k], "_", i)
                  && TakenBefore(preferred[k], "_", reserved + Elements(names[..k]), i);
    CandidateSpells(preferred[k], i);
    forall j: nat | j < i ensures Taken(preferred[k], j, reserved, names[..k]) {
      CandidateSpells(preferred[k], j);
      assert Candidate(preferred[k], "_", j) in reserved + Elements(names[..k]);
    }
    forall j | 0 <= j < k ensures names[j] != names[k] {
      assert names[..k][j] == names[j];
    }
  }
}
