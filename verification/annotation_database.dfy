/**
 * The permission filter applied to search results. On the "ATG" deployment a
 * user without elevated read permission only sees the rows whose read list is
 * empty or names them; everywhere else, and for anonymous or privileged
 * users, the envelope passes through untouched. The organisation setting is a
 * parameter.
 */
module AnnotationDatabase {
  import opened Values
  import opened Annotations

  /** The row carries `permissions.read`, which the filter reads without a guard. */
  predicate HasReadList(row: Annotation)
  {
    row.permissions.Some? && row.permissions.value.read.Some?
  }

  /** The row is readable by `userId`: its read list is empty or names the user. */
  predicate MayRead(row: Annotation, userId: string)
    requires HasReadList(row)
  {
    var read := row.permissions.value.read.value;
    |read| == 0 || userId in read
  }

  predicate AllHaveReadLists(rows: seq<Annotation>)
  {
    forall i :: 0 <= i < |rows| ==> HasReadList(rows[i])
  }

  /** The rows `userId` may read, in their original order. */
  function Readable(rows: seq<Annotation>, userId: string): seq<Annotation>
    requires AllHaveReadLists(rows)
    decreases |rows|
  {
    if rows == [] then []
    else
      var last := rows[|rows| - 1];
      Readable(rows[..|rows| - 1], userId) + (if MayRead(last, userId) then [last] else [])
  }

  /** The filter applies: the deployment is "ATG", the user is known and has no elevated permission. */
  predicate Filters(organization: string, userId: Option<string>, hasReadPerm: bool)
  {
    organization == "ATG" && userId.Some? && !hasReadPerm
  }

  /**
   * The filtered envelope: `limit` and `offset` copied, the readable rows
   * kept in order, and `total` recounted. A row without `permissions.read`
   * makes the lookup raise KeyError before the row is tested.
   */
  method ProcessSearchResponse(data: Envelope, organization: string, userId: Option<string>, hasReadPerm: bool)
    returns (r: Result<Envelope>)
    ensures !Filters(organization, userId, hasReadPerm) ==> r == Ok(data)
    ensures Filters(organization, userId, hasReadPerm) ==>
              (r.Ok? <==> AllHaveReadLists(data.rows)) && (r.Err? ==> r.error == KeyError)
    ensures Filters(organization, userId, hasReadPerm) && r.Ok? ==>
              var kept := Readable(data.rows, userId.value);
              r.value == Envelope(|kept|, data.limit, data.offset, kept)
  {
    if organization != "ATG" {
      return Ok(data);
    }
    if userId.None? {
      return Ok(data);
    }
    if hasReadPerm {
      return Ok(data);
    }
    var rows: seq<Annotation> := [];
    for i := 0 to |data.rows|
      invariant AllHaveReadLists(data.rows[..i])
      invariant rows == Readable(data.rows[..i], userId.value)
    {
      var row := data.rows[i];
      if !HasReadList(row) {
        return Err(KeyError);
      }
      var readPermissions := row.permissions.value.read.value;
      assert data.rows[..i + 1][..i] == data.rows[..i];
      if |readPermissions| == 0 || userId.value in readPermissions {
        rows := rows + [row];
      }
    }
    assert data.rows[..|data.rows|] == data.rows;
    r := Ok(Envelope(|rows|, data.limit, data.offset, rows));
  }

  /**
   * The readable rows are an order-preserving selection of the input: `idx`
   * lists, in increasing order, exactly the positions of the rows the user
   * may read.
   */
  lemma {:induction false} ReadableSelection(rows: seq<Annotation>, userId: string) returns (idx: seq<nat>)
    requires AllHaveReadLists(rows)
    ensures |idx| == |Readable(rows, userId)|
    ensures forall k :: 0 <= k < |idx| ==> idx[k] < |rows| && Readable(rows, userId)[k] == rows[idx[k]]
    ensures forall k, l :: 0 <= k < l < |idx| ==> idx[k] < idx[l]
    ensures forall i :: 0 <= i < |rows| ==> (MayRead(rows[i], userId) <==> i in idx)
    decreases |rows|
  {
    if rows == [] {
      idx := [];
    } else {
      var n := |rows| - 1;
      var init := rows[..n];
      assert AllHaveReadLists(init);
      var prev := ReadableSelection(init, userId);
      if MayRead(rows[n], userId) {
        idx := prev + [n];
      } else {
        idx := prev;
      }
      forall i | 0 <= i < |rows| ensures MayRead(rows[i], userId) <==> i in idx {
        if i < n {
          assert rows[i] == init[i];
          assert n !in prev;
        }
      }
    }
  }

  /** Every kept row is readable, and filtering a filtered list changes nothing. */
  lemma {:induction false} ReadableIdempotent(rows: seq<Annotation>, userId: string)
    requires AllHaveReadLists(rows)
    ensures AllHaveReadLists(Readable(rows, userId))
    ensures forall k :: 0 <= k < |Readable(rows, userId)| ==> MayRead(Readable(rows, userId)[k], userId)
    ensures Readable(Readable(rows, userId), userId) == Readable(rows, userId)
    decreases |rows|
  {
    if rows != [] {
      var n := |rows| - 1;
      var init := rows[..n];
      var kept := Readable(init, userId);
      ReadableIdempotent(init, userId);
      if MayRead(rows[n], userId) {
        var out := kept + [rows[n]];
        assert Readable(rows, userId) == out;
        assert AllHaveReadLists(out) by {
          forall k | 0 <= k < |out| ensures HasReadList(out[k]) {
            if k < |kept| { assert out[k] == kept[k]; }
          }
        }
        assert out[..|out| - 1] == kept;
        assert Readable(out, userId) == Readable(kept, userId) + [rows[n]];
        forall k | 0 <= k < |out| ensures MayRead(out[k], userId) {
          if k < |kept| { assert out[k] == kept[k]; }
        }
      } else {
        assert Readable(rows, userId) == kept;
      }
    }
  }

  /** A row with an empty read list is readable by everyone. */
  lemma EmptyReadListIsPublic(row: Annotation, userId: string)
    requires row.permissions == Some(Permissions(Some([])))
    ensures MayRead(row, userId)
  {
  }

  /** A row readable only by "X" is kept exactly for the user "X". */
  lemma SingleReaderRow(row: Annotation, userId: string)
    requires row.permissions == Some(Permissions(Some(["X"])))
    ensures Readable([row], userId) == (if userId == "X" then [row] else [])
  {
    assert [row][..0] == [];
  }
}
