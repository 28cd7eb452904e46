/** Shared value types of the bot: optional values, the members who issue
    commands, the deployment-specific ids (role whitelist, channels, the
    bot's own account) and record datatypes stored in the database. */
module Common {

  datatype Option<+T> = None | Some(value: T)

  /** The three results of a reaction confirmation, Python's True / False / None. */
  datatype Confirmed = Accepted | Rejected | Unanswered

  /** A guild member as the command context sees it. */
  datatype Member = Member(id: int, name: string, roles: seq<int>)

  /** Ids that live in the deployment's own constants file. */
  datatype BotConfig = BotConfig(
    roleWhitelist: set<int>,
    botId: int,
    mapChannel: int,
    mapSubmitChannel: int,
    recordChannel: int,
    hiddenVerificationChannel: int,
    taChannel: int,
    mcChannel: int,
    hcChannel: int,
    bonusChannel: int)

  /** `any(role.id in ROLE_WHITELIST for role in member.roles)` */
  predicate HasWhitelistedRole(m: Member, cfg: BotConfig) {
    exists i :: 0 <= i < |m.roles| && m.roles[i] in cfg.roleWhitelist
  }

  /** A MapData document (database/MapData.py). */
  datatype MapRecord = MapRecord(
    code: string,
    creator: string,
    mapName: string,
    postedBy: int,
    types: seq<string>,
    desc: string)

  /** A WorldRecords document (database/WorldRecords.py); `id` is the
      document's primary key and `hiddenId` the id of the moderators' copy. */
  datatype PbRecord = PbRecord(
    id: int,
    code: string,
    name: string,
    postedBy: int,
    messageId: int,
    url: string,
    level: string,
    record: real,
    verified: bool,
    hiddenId: Option<int>)

  /** The first `n` elements, as a cursor's `.limit(n)` yields them. */
  function Take<T>(s: seq<T>, n: nat): (r: seq<T>)
    ensures |r| == if |s| <= n then |s| else n
    ensures r == s[..|r|]
  {
    if |s| <= n then s else s[..n]
  }

  /** `ceil(n / k)` */
  function CeilDiv(n: nat, k: nat): (r: nat)
    requires k > 0
    ensures r * k >= n
    ensures r > 0 ==> (r - 1) * k < n
  {
    (n + k - 1) / k
  }

  function Min(a: int, b: int): int { if a <= b then a else b }

  lemma AppendAssoc<T>(a: seq<T>, b: seq<T>, c: seq<T>)
    ensures (a + b) + c == a + (b + c)
  {
  }

  /** Concatenation of a sequence of pages. */
  function Flatten<T>(pages: seq<seq<T>>): seq<T>
  {
    if pages == [] then [] else pages[0] + Flatten(pages[1..])
  }

  lemma {:induction false} FlattenAppend<T>(pages: seq<seq<T>>, page: seq<T>)
    ensures Flatten(pages + [page]) == Flatten(pages) + page
  {
    if pages == [] {
      assert pages + [page] == [page];
    } else {
      assert (pages + [page])[1..] == pages[1..] + [page];
      FlattenAppend(pages[1..], page);
    }
  }

  lemma {:induction false} FlattenConcat<T>(a: seq<seq<T>>, b: seq<seq<T>>)
    ensures Flatten(a + b) == Flatten(a) + Flatten(b)
  {
    if a == [] {
      assert a + b == b;
    } else {
      assert (a + b)[1..] == a[1..] + b;
      FlattenConcat(a[1..], b);
    }
  }

  /** `s` cut into consecutive pages of `n` elements; the last page holds
      the remainder. */
  function Chunks<T>(s: seq<T>, n: nat): seq<seq<T>>
    requires n > 0
    decreases |s|
  {
    if s == [] then []
    else if |s| <= n then [s]
    else [s[..n]] + Chunks(s[n..], n)
  }

  /** Every element lands on exactly one page, in order; there are
      ceil(|s| / n) pages, all but the last full, none empty. */
  lemma ChunksCover<T>(s: seq<T>, n: nat)
    requires n > 0
    ensures Flatten(Chunks(s, n)) == s
    ensures |Chunks(s, n)| == CeilDiv(|s|, n)
    ensures forall k :: 0 <= k < |Chunks(s, n)| ==> 1 <= |Chunks(s, n)[k]| <= n
    ensures forall k :: 0 <= k < |Chunks(s, n)| - 1 ==> |Chunks(s, n)[k]| == n
  {
    ChunksFlatten(s, n);
    ChunksCount(s, n);
    ChunksSizes(s, n);
  }

  lemma {:induction false} ChunksFlatten<T>(s: seq<T>, n: nat)
    requires n > 0
    ensures Flatten(Chunks(s, n)) == s
    decreases |s|
  {
    if |s| > n {
      ChunksFlatten(s[n..], n);
      assert s[..n] + s[n..] == s;
      assert ([s[..n]] + Chunks(s[n..], n))[1..] == Chunks(s[n..], n);
    }
  }

  lemma {:induction false} ChunksCount<T>(s: seq<T>, n: nat)
    requires n > 0
    ensures |Chunks(s, n)| == CeilDiv(|s|, n)
    decreases |s|
  {
    if |s| > n {
      ChunksCount(s[n..], n);
      CeilDivStep(|s|, n);
    } else if s != [] {
      CeilDivOne(|s|, n);
    }
  }

  lemma {:induction false} ChunksSizes<T>(s: seq<T>, n: nat)
    requires n > 0
    ensures forall k :: 0 <= k < |Chunks(s, n)| ==> 1 <= |Chunks(s, n)[k]| <= n
    ensures forall k :: 0 <= k < |Chunks(s, n)| - 1 ==> |Chunks(s, n)[k]| == n
    decreases |s|
  {
    if |s| > n {
      ChunksSizes(s[n..], n);
      var c := Chunks(s, n);
      assert c[1..] == Chunks(s[n..], n);
      forall k | 1 <= k < |c| ensures c[k] == Chunks(s[n..], n)[k - 1] {
      }
    }
  }

  lemma CeilDivOne(m: nat, n: nat)
    requires 0 < m <= n
    ensures CeilDiv(m, n) == 1
  {
    CeilDivUnique(m, n, 1);
  }

  lemma CeilDivStep(m: nat, n: nat)
    requires n > 0 && m > n
    ensures CeilDiv(m, n) == CeilDiv(m - n, n) + 1
  {
    var b := CeilDiv(m - n, n);
    assert (b + 1) * n == b * n + n;
    CeilDivUnique(m, n, b + 1);
  }

  /** The only `r` with `(r - 1) * n < m <= r * n`. */
  lemma CeilDivUnique(m: nat, n: nat, r: nat)
    requires n > 0 && m > 0
    requires r * n >= m && (r - 1) * n < m
    ensures CeilDiv(m, n) == r
  {
    var c := CeilDiv(m, n);
    if r < c {
      MulMono(r, c - 1, n);
    } else if r > c {
      MulMono(c, r - 1, n);
    }
  }

  lemma MulMono(x: int, y: int, n: nat)
    requires x <= y
    ensures x * n <= y * n
  {
    assert y * n - x * n == (y - x) * n;
  }

  /** Appending a page to `q` full pages. */
  lemma {:induction false} ChunksAppend<T>(a: seq<T>, b: seq<T>, n: nat, q: nat)
    requires n > 0 && |a| == n * q && 1 <= |b| <= n
    ensures Chunks(a + b, n) == Chunks(a, n) + [b]
    decreases q
  {
    if q == 0 {
      assert a + b == b;
    } else {
      assert n * q == n * (q - 1) + n;
      ChunksAppend(a[n..], b, n, q - 1);
      assert (a + b)[..n] == a[..n];
      assert (a + b)[n..] == a[n..] + b;
    }
  }

  /** Page `k` of `s` is the slice from `n * k` of at most `n` elements. */
  lemma {:induction false} ChunkAt<T>(s: seq<T>, n: nat, k: nat)
    requires n > 0 && k < |Chunks(s, n)|
    ensures n * k < |s|
    ensures Chunks(s, n)[k] == s[n * k..Min(n * k + n, |s|)]
    decreases k
  {
    if k > 0 {
      assert |s| > n;
      assert Chunks(s, n)[k] == Chunks(s[n..], n)[k - 1];
      ChunkAt(s[n..], n, k - 1);
      MulSucc(n, k - 1);
      assert s[n..][n * (k - 1)..Min(n * (k - 1) + n, |s| - n)] == s[n * k..Min(n * k + n, |s|)];
    }
  }

  /** A prefix one element longer. */
  lemma PrefixSnoc<T>(s: seq<T>, k: nat)
    requires k < |s|
    ensures s[..k + 1] == s[..k] + [s[k]]
    ensures s[..k + 1][..k] == s[..k]
  {
  }

  /** A slice one element longer. */
  lemma SliceSnoc<T>(s: seq<T>, a: nat, b: nat)
    requires a <= b < |s|
    ensures s[a..b + 1] == s[a..b] + [s[b]]
  {
  }

  /** The state of a loop that pages `s` `n` to a page, closing a page
      after every `n`-th element and after the last one, once `i` elements
      are in: `done` holds the closed pages, which cover the first `base`
      elements, and `cur` the elements of the open page. */
  ghost predicate Paging<T>(s: seq<T>, n: nat, i: nat, base: nat, done: seq<seq<T>>, cur: seq<T>)
    requires n > 0
  {
    && base <= i <= |s|
    && (i < |s| ==> base == n * |done| && i - base < n && done == Chunks(s[..base], n) && cur == s[base..i])
    && (i == |s| ==> done == Chunks(s, n) && cur == [])
  }

  /** Before the first element nothing is paged. */
  lemma PagingStarts<T>(s: seq<T>, n: nat)
    requires n > 0
    ensures Paging(s, n, 0, 0, [], [])
  {
    assert s[..0] == [];
  }

  /** One more page of `n`. */
  lemma MulSucc(n: nat, q: nat)
    ensures n * (q + 1) == n * q + n
  {
  }

  /** Element `i` closes the open page: it is the page's `n`-th or the
      last element. */
  lemma PagingCloses<T>(s: seq<T>, n: nat, i: nat, base: nat, done: seq<seq<T>>, cur: seq<T>)
    requires n > 0 && i < |s| && Paging(s, n, i, base, done, cur)
    requires i + 1 < |s| ==> i + 1 == base + n
    ensures Paging(s, n, i + 1, if i + 1 < |s| then i + 1 else base, done + [cur + [s[i]]], [])
  {
    assert cur + [s[i]] == s[base..i + 1];
    assert s[..base] + s[base..i + 1] == s[..i + 1];
    ChunksAppend(s[..base], cur + [s[i]], n, |done|);
    if i + 1 < |s| {
      MulSucc(n, |done|);
      assert s[i + 1..i + 1] == [];
    } else {
      assert s[..i + 1] == s;
    }
  }

  /** Otherwise element `i` joins the open page. */
  lemma PagingKeeps<T>(s: seq<T>, n: nat, i: nat, base: nat, done: seq<seq<T>>, cur: seq<T>)
    requires n > 0 && i < |s| && Paging(s, n, i, base, done, cur)
    requires i + 1 < |s| && i + 1 < base + n
    ensures Paging(s, n, i + 1, base, done, cur + [s[i]])
  {
    assert cur + [s[i]] == s[base..i + 1];
  }

  // ----- first-occurrence deduplication -----

  /** The distinct elements of `s` in order of first occurrence, as the keys
      of a dict filled from `s` come out. */
  function Dedupe<T(==,!new)>(s: seq<T>): (r: seq<T>)
    ensures forall x :: x in r <==> x in s
    ensures |r| <= |s|
  {
    if s == [] then []
    else
      var d := Dedupe(s[..|s| - 1]);
      if s[|s| - 1] in d then d else d + [s[|s| - 1]]
  }

  /** The position of the first occurrence of `x` in `s`. */
  function FirstIndex<T(==)>(s: seq<T>, x: T): (i: nat)
    requires x in s
    ensures i < |s| && s[i] == x && x !in s[..i]
  {
    if s[0] == x then 0 else 1 + FirstIndex(s[1..], x)
  }

  lemma FirstIndexOfPrefix<T>(s: seq<T>, n: nat, x: T)
    requires n <= |s| && x in s[..n]
    ensures FirstIndex(s[..n], x) == FirstIndex(s, x)
  {
    if s[0] != x {
      var p := s[..n];
      assert p[0] == s[0];
      assert p[1..] == s[1..][..n - 1];
      assert x in p[1..];
      FirstIndexOfPrefix(s[1..], n - 1, x);
      assert FirstIndex(p, x) == 1 + FirstIndex(p[1..], x);
      assert FirstIndex(s, x) == 1 + FirstIndex(s[1..], x);
    }
  }

  /** No element twice, and the order is that of first occurrences. */
  lemma {:induction false} DedupeOrdered<T(!new)>(s: seq<T>)
    ensures forall i, j :: 0 <= i < j < |Dedupe(s)| ==> Dedupe(s)[i] != Dedupe(s)[j]
    ensures forall i, j :: 0 <= i < j < |Dedupe(s)| ==> FirstIndex(s, Dedupe(s)[i]) < FirstIndex(s, Dedupe(s)[j])
    decreases |s|
  {
    if s != [] {
      var p := s[..|s| - 1];
      var d := Dedupe(p);
      DedupeOrdered(p);
      forall x | x in d
        ensures FirstIndex(s, x) == FirstIndex(p, x) && FirstIndex(p, x) < |p|
      {
        assert s[..|s| - 1] == p;
        FirstIndexOfPrefix(s, |s| - 1, x);
      }
      if s[|s| - 1] !in d {
        var last := s[|s| - 1];
        assert last !in p;
        assert FirstIndex(s, last) == |s| - 1;
        assert Dedupe(s) == d + [last];
        forall i, j | 0 <= i < j < |Dedupe(s)|
          ensures Dedupe(s)[i] != Dedupe(s)[j]
          ensures FirstIndex(s, Dedupe(s)[i]) < FirstIndex(s, Dedupe(s)[j])
        {
          assert Dedupe(s)[i] == d[i];
          assert d[i] in d;
          if j < |d| {
            assert Dedupe(s)[j] == d[j] && d[j] in d;
          }
        }
      }
    }
  }

  /** The rows whose key has not been seen before, in order: the row kept
      for each key is its first. */
  function FirstRows<T, K(==,!new)>(rows: seq<T>, keys: seq<K>): seq<T>
    requires |keys| == |rows|
  {
    if rows == [] then []
    else
      var n := |rows| - 1;
      var p := FirstRows(rows[..n], keys[..n]);
      if keys[n] in keys[..n] then p else p + [rows[n]]
  }

  /** The last row is kept exactly when its key is new. */
  lemma FirstRowsSnoc<T, K(!new)>(rows: seq<T>, keys: seq<K>, row: T, key: K)
    requires |keys| == |rows|
    ensures FirstRows(rows + [row], keys + [key]) == FirstRows(rows, keys) + (if key in keys then [] else [row])
  {
    assert (rows + [row])[..|rows|] == rows;
    assert (keys + [key])[..|keys|] == keys;
  }

  /** One row is kept per distinct key. */
  lemma {:induction false} FirstRowsCount<T, K(!new)>(rows: seq<T>, keys: seq<K>)
    requires |keys| == |rows|
    ensures |FirstRows(rows, keys)| == |Dedupe(keys)|
    decreases |rows|
  {
    if rows != [] {
      var n := |rows| - 1;
      FirstRowsCount(rows[..n], keys[..n]);
      assert keys[..|keys| - 1] == keys[..n];
    }
  }

  /** The k-th row kept is the first row carrying the k-th distinct key. */
  lemma {:induction false} FirstRowsAreFirst<T, K(!new)>(rows: seq<T>, keys: seq<K>)
    requires |keys| == |rows|
    ensures |FirstRows(rows, keys)| == |Dedupe(keys)|
    ensures forall k :: 0 <= k < |Dedupe(keys)| ==> FirstRows(rows, keys)[k] == rows[FirstIndex(keys, Dedupe(keys)[k])]
    decreases |rows|
  {
    FirstRowsCount(rows, keys);
    if rows != [] {
      var n := |rows| - 1;
      var d := Dedupe(keys[..n]);
      FirstRowsAreFirst(rows[..n], keys[..n]);
      forall k | 0 <= k < |d|
        ensures FirstIndex(keys[..n], d[k]) == FirstIndex(keys, d[k])
      {
        assert d[k] in d;
        FirstIndexOfPrefix(keys, n, d[k]);
      }
      if keys[n] !in keys[..n] {
        assert FirstIndex(keys, keys[n]) == n;
      }
    }
  }
}
