/** Value types and JavaScript string and array operations shared by every part of the client. */
module Common {

  datatype Option<T> = None | Some(value: T)

  /** A user id (a uuid string in the store). */
  type UserId = string
  /** A row id the store assigns to a room, a membership or a ban. */
  type RowId = nat

  /** One field of a plain JavaScript object as an object spread sees it: the key is
      missing, the key holds `null`, or the key holds a value. */
  datatype Slot<T> = Absent | Null | Has(value: T)

  /** `{...base, ...patch}` on one field: a key the patch carries (even as `null`) wins. */
  function Overlay<T>(base: Slot<T>, patch: Slot<T>): Slot<T>
  {
    if patch.Absent? then base else patch
  }

  /** The reply of a Supabase query or procedure call: an error, or the `data` it returned,
      which may be `null`. */
  datatype Reply<T> = Failed | Ok(data: Option<T>)

  /** `data || []` on a successful reply. */
  function OrEmpty<T>(data: Option<seq<T>>): seq<T>
  {
    if data.Some? then data.value else []
  }

  /** The signed-in user as the identity provider hands it over; `email` may be missing. */
  datatype AuthUser = AuthUser(id: UserId, email: Option<string>)

  /** `(user.email || "").toLowerCase()`: the case-insensitive key of a user. */
  function UserKey(u: AuthUser): string
  {
    Lower(if u.email.Some? then u.email.value else "")
  }

  /** `a ?? b`: the value when the field holds one, the fallback when it is missing or null. */
  function Coalesce<T>(s: Slot<T>, fallback: T): T
  {
    if s.Has? then s.value else fallback
  }

  // ---------------------------------------------------------------------------
  // Characters and strings

  /** `String.prototype.toLowerCase` on one character, restricted to the ASCII letters. */
  function LowerChar(c: char): char
  {
    if 'A' <= c <= 'Z' then (c as int + 32) as char else c
  }

  function Lower(s: string): (r: string)
    ensures |r| == |s|
    ensures forall i :: 0 <= i < |s| ==> r[i] == LowerChar(s[i])
  {
    if s == [] then [] else [LowerChar(s[0])] + Lower(s[1..])
  }

  /** Lower-casing twice is lower-casing once, so comparing lower-cased keys is stable. */
  lemma {:induction false} LowerIdempotent(s: string)
    ensures Lower(Lower(s)) == Lower(s)
  {
    if s != [] {
      LowerIdempotent(s[1..]);
      assert Lower(s)[1..] == Lower(s[1..]);
    }
  }

  /** The characters ECMAScript's `trim` removes: WhiteSpace and LineTerminator. */
  predicate IsSpace(c: char)
  {
    var n := c as int;
    n == 0x09 || n == 0x0A || n == 0x0B || n == 0x0C || n == 0x0D || n == 0x20 ||
    n == 0xA0 || n == 0x1680 || (0x2000 <= n <= 0x200A) || n == 0x2028 || n == 0x2029 ||
    n == 0x202F || n == 0x205F || n == 0x3000 || n == 0xFEFF
  }

  function TrimStart(s: string): string
  {
    if s != [] && IsSpace(s[0]) then TrimStart(s[1..]) else s
  }

  /** `TrimStart` drops a leading run of spaces and stops at the first other character. */
  lemma {:induction false} TrimStartSpec(s: string)
    ensures |TrimStart(s)| <= |s| && TrimStart(s) == s[|s| - |TrimStart(s)|..]
    ensures TrimStart(s) != [] ==> !IsSpace(TrimStart(s)[0])
    ensures forall i :: 0 <= i < |s| - |TrimStart(s)| ==> IsSpace(s[i])
  {
    if s != [] && IsSpace(s[0]) {
      var tail := s[1..];
      TrimStartSpec(tail);
      var t := TrimStart(tail);
      assert TrimStart(s) == t;
      assert tail[|tail| - |t|..] == s[|s| - |t|..];
      forall i | 0 <= i < |s| - |t|
        ensures IsSpace(s[i])
      {
        if i > 0 {
          assert s[i] == tail[i - 1];
        }
      }
    }
  }

  function TrimEnd(s: string): string
  {
    if s != [] && IsSpace(s[|s| - 1]) then TrimEnd(s[..|s| - 1]) else s
  }

  /** `TrimEnd` drops a trailing run of spaces and stops at the last other character. */
  lemma {:induction false} TrimEndSpec(s: string)
    ensures |TrimEnd(s)| <= |s| && TrimEnd(s) == s[..|TrimEnd(s)|]
    ensures TrimEnd(s) != [] ==> !IsSpace(TrimEnd(s)[|TrimEnd(s)| - 1])
    ensures forall i :: |TrimEnd(s)| <= i < |s| ==> IsSpace(s[i])
  {
    if s != [] && IsSpace(s[|s| - 1]) {
      var init := s[..|s| - 1];
      TrimEndSpec(init);
      var t := TrimEnd(init);
      assert TrimEnd(s) == t;
      assert init[..|t|] == s[..|t|];
      forall i | |t| <= i < |s|
        ensures IsSpace(s[i])
      {
        if i < |s| - 1 {
          assert s[i] == init[i];
        }
      }
    }
  }

  /** `String.prototype.trim`. */
  function Trim(s: string): (r: string)
  {
    TrimEnd(TrimStart(s))
  }

  /** A string is blank when every character is one `trim` removes. */
  predicate IsBlank(s: string)
  {
    forall i :: 0 <= i < |s| ==> IsSpace(s[i])
  }

  /** `trim` removes a run of spaces at each end and nothing else: the result is a
      contiguous piece of the input that neither starts nor ends with a space. */
  lemma TrimShape(s: string)
    ensures |TrimStart(s)| <= |s| &&
      var k := |s| - |TrimStart(s)|;
      k + |Trim(s)| <= |s| && Trim(s) == s[k..k + |Trim(s)|]
    ensures Trim(s) != [] ==> !IsSpace(Trim(s)[0]) && !IsSpace(Trim(s)[|Trim(s)| - 1])
  {
    TrimStartSpec(s);
    TrimEndSpec(TrimStart(s));
  }

  /** `text.trim()` is falsy exactly when the text is blank: this is the guard every send
      path uses. */
  lemma TrimEmptyIffBlank(s: string)
    ensures Trim(s) == [] <==> IsBlank(s)
  {
    var t := TrimStart(s);
    TrimStartSpec(s);
    TrimEndSpec(t);
    if Trim(s) == [] {
      assert t == [];
    } else {
      var c := Trim(s)[0];
      assert c == t[0];
      assert s[|s| - |t|] == c && !IsSpace(c);
    }
  }

  /** Trimming a trimmed string changes nothing. */
  lemma TrimIdempotent(s: string)
    ensures Trim(Trim(s)) == Trim(s)
  {
    var r := Trim(s);
    TrimShape(s);
    if r != [] {
      assert !IsSpace(r[0]) && !IsSpace(r[|r| - 1]);
      assert TrimStart(r) == r;
      assert TrimEnd(r) == r;
    }
  }

  /** `s.split(sep)[0]`: everything before the first occurrence of `sep`, or all of `s`. */
  function BeforeFirst(s: string, sep: char): (r: string)
    ensures |r| <= |s| && r == s[..|r|]
    ensures sep !in r
    ensures |r| < |s| ==> s[|r|] == sep
    ensures sep !in s ==> r == s
  {
    if s == [] || s[0] == sep then [] else [s[0]] + BeforeFirst(s[1..], sep)
  }

  /** `email.split('@')[0]`, the name a chat shows for an email: the part before the first
      '@', or the whole email when it has none. */
  function Username(email: string): (r: string)
    ensures |r| <= |email| && r == email[..|r|] && '@' !in r
    ensures '@' in email ==> |r| < |email| && email[|r|] == '@'
    ensures '@' !in email ==> r == email
  {
    BeforeFirst(email, '@')
  }

  // ---------------------------------------------------------------------------
  // Array.prototype.findIndex

  /** `Array.prototype.findIndex`: the first index whose element satisfies `p`. */
  function FindIndex<T>(s: seq<T>, p: T -> bool): (r: Option<nat>)
    ensures r.Some? ==> r.value < |s| && p(s[r.value])
    ensures r.Some? ==> forall j :: 0 <= j < r.value ==> !p(s[j])
    ensures r.None? ==> forall j :: 0 <= j < |s| ==> !p(s[j])
  {
    if s == [] then None
    else if p(s[0]) then Some(0)
    else match FindIndex(s[1..], p)
      case None => None
      case Some(k) => Some(k + 1)
  }

  /** `[...new Set(s)]`: the first occurrence of each value, in order. */
  function Dedup<T(==)>(s: seq<T>): (r: seq<T>)
  {
    DedupFrom(s, {})
  }

  function DedupFrom<T(==)>(s: seq<T>, seen: set<T>): (r: seq<T>)
  {
    if s == [] then []
    else if s[0] in seen then DedupFrom(s[1..], seen)
    else [s[0]] + DedupFrom(s[1..], seen + {s[0]})
  }

  /** `DedupFrom` keeps exactly the values not yet seen, each once. */
  lemma {:induction false} DedupFromSpec<T>(s: seq<T>, seen: set<T>)
    ensures forall x :: x in DedupFrom(s, seen) <==> x in s && x !in seen
    ensures forall i, j :: 0 <= i < j < |DedupFrom(s, seen)| ==> DedupFrom(s, seen)[i] != DedupFrom(s, seen)[j]
  {
    if s != [] {
      if s[0] in seen {
        DedupFromSpec(s[1..], seen);
      } else {
        DedupFromSpec(s[1..], seen + {s[0]});
        var rest := DedupFrom(s[1..], seen + {s[0]});
        assert DedupFrom(s, seen) == [s[0]] + rest;
        assert s[0] !in rest;
      }
    }
  }

  /** `[...new Set(s)]` holds every value of `s` exactly once. */
  lemma DedupSpec<T>(s: seq<T>)
    ensures forall x :: x in Dedup(s) <==> x in s
    ensures forall i, j :: 0 <= i < j < |Dedup(s)| ==> Dedup(s)[i] != Dedup(s)[j]
  {
    DedupFromSpec(s, {});
  }

  // ---------------------------------------------------------------------------
  // Ordering by an integer key (a query's `.order(column, ...)`)

  predicate SortedBy<T>(s: seq<T>, key: T -> int)
  {
    forall i, j :: 0 <= i < j < |s| ==> key(s[i]) <= key(s[j])
  }

  function InsertBy<T>(x: T, s: seq<T>, key: T -> int): (r: seq<T>)
    requires SortedBy(s, key)
    ensures SortedBy(r, key)
    ensures multiset(r) == multiset(s) + multiset{x}
  {
    if s == [] then [x]
    else if key(x) <= key(s[0]) then [x] + s
    else
      var tail := s[1..];
      var rest := InsertBy(x, tail, key);
      assert s == [s[0]] + tail;
      KeysAtLeast(rest, tail, x, key(s[0]), key);
      [s[0]] + rest
  }

  /** Every element of a permutation of `pool` plus `x` has a key of at least `lo` when
      every element of `pool` and `x` do. */
  lemma KeysAtLeast<T>(r: seq<T>, pool: seq<T>, x: T, lo: int, key: T -> int)
    requires multiset(r) == multiset(pool) + multiset{x}
    requires lo <= key(x) && forall k :: 0 <= k < |pool| ==> lo <= key(pool[k])
    ensures forall k :: 0 <= k < |r| ==> lo <= key(r[k])
  {
    forall k | 0 <= k < |r|
      ensures lo <= key(r[k])
    {
      assert r[k] in multiset(r);
      if r[k] != x {
        assert r[k] in multiset(pool);
      }
    }
  }

  /** Insertion sort: the rows of `s` in ascending order of `key`. */
  function SortBy<T>(s: seq<T>, key: T -> int): (r: seq<T>)
    ensures SortedBy(r, key)
    ensures multiset(r) == multiset(s)
  {
    if s == [] then []
    else
      assert s == [s[0]] + s[1..];
      InsertBy(s[0], SortBy(s[1..], key), key)
  }
}
