/** The changeset record and its fixed twelve-column row layout
    (lib/changesets.py:16-43, repeated in lib/parser.py:13-40). */
module Record {
  import opened Wrappers

  /** Number of columns of every row written to the sink. */
  const ColumnCount: nat := 12
  /** The leading columns copied from the attributes of a `changeset` element;
      the remaining three come from nested `tag` elements. */
  const AttributeCount: nat := 9

  /** One changeset. Every field holds the text the source carries for it, or None
      where `attrs.get` found no such attribute (a `tag` without `v` too). */
  datatype Changeset = Changeset(
    id: Option<string>,
    createdAt: Option<string>,
    closedAt: Option<string>,
    numChanges: Option<string>,
    uid: Option<string>,
    minLat: Option<string>,
    maxLat: Option<string>,
    minLon: Option<string>,
    maxLon: Option<string>,
    comment: Option<string>,
    createdBy: Option<string>,
    locale: Option<string>)

  /** `attrs.get(key)`: the attribute's value, or None when it is absent. */
  function Lookup(attrs: map<string, string>, key: string): Option<string>
  {
    if key in attrs then Some(attrs[key]) else None
  }

  /** The position of a column name in the row layout, or None for a name that is no column. */
  function ColumnIndex(name: string): (k: Option<nat>)
    ensures k.Some? ==> k.value < ColumnCount
  {
    if name == "id" then Some(0)
    else if name == "created_at" then Some(1)
    else if name == "closed_at" then Some(2)
    else if name == "num_changes" then Some(3)
    else if name == "uid" then Some(4)
    else if name == "min_lat" then Some(5)
    else if name == "max_lat" then Some(6)
    else if name == "min_lon" then Some(7)
    else if name == "max_lon" then Some(8)
    else if name == "comment" then Some(9)
    else if name == "created_by" then Some(10)
    else if name == "locale" then Some(11)
    else None
  }

  predicate IsColumn(name: string)
  {
    ColumnIndex(name).Some?
  }

  /** The three keys a nested `tag` element may set: exactly the trailing columns. */
  predicate IsTagKey(name: string)
  {
    IsColumn(name) && ColumnIndex(name).value >= AttributeCount
  }

  /** The field a column name designates (attribute access by name). */
  function Field(c: Changeset, name: string): Option<string>
    requires IsColumn(name)
  {
    if name == "id" then c.id
    else if name == "created_at" then c.createdAt
    else if name == "closed_at" then c.closedAt
    else if name == "num_changes" then c.numChanges
    else if name == "uid" then c.uid
    else if name == "min_lat" then c.minLat
    else if name == "max_lat" then c.maxLat
    else if name == "min_lon" then c.minLon
    else if name == "max_lon" then c.maxLon
    else if name == "comment" then c.comment
    else if name == "created_by" then c.createdBy
    else c.locale
  }

  /** `Changeset.headerRow()`: twelve distinct column names, each at the position
      `ColumnIndex` gives it, and every column name among them. */
  function HeaderRow(): (names: seq<string>)
    ensures |names| == ColumnCount
    ensures forall i :: 0 <= i < |names| ==> ColumnIndex(names[i]) == Some(i)
    ensures forall name :: IsColumn(name) ==> name in names
  {
    [ "id", "created_at", "closed_at", "num_changes", "uid",
      "min_lat", "max_lat", "min_lon", "max_lon",
      "comment", "created_by", "locale" ]
  }

  /** `Changeset.toRow()`: twelve values, position i holding the field named by
      the header's column i. */
  function ToRow(c: Changeset): (values: seq<Option<string>>)
    ensures |values| == ColumnCount
    ensures forall i :: 0 <= i < |values| ==> values[i] == Field(c, HeaderRow()[i])
  {
    [ c.id, c.createdAt, c.closedAt, c.numChanges, c.uid,
      c.minLat, c.maxLat, c.minLon, c.maxLon,
      c.comment, c.createdBy, c.locale ]
  }

  /** The record allocated at the start of a `changeset` element: the nine attribute
      columns come from the element's attributes (None where absent), the three tag
      columns hold the class default, the empty string. */
  function Open(attrs: map<string, string>): (c: Changeset)
    ensures forall name :: IsColumn(name) ==>
      Field(c, name) == if IsTagKey(name) then Some("") else Lookup(attrs, name)
  {
    Changeset(
      Lookup(attrs, "id"), Lookup(attrs, "created_at"), Lookup(attrs, "closed_at"),
      Lookup(attrs, "num_changes"), Lookup(attrs, "uid"),
      Lookup(attrs, "min_lat"), Lookup(attrs, "max_lat"),
      Lookup(attrs, "min_lon"), Lookup(attrs, "max_lon"),
      Some(""), Some(""), Some(""))
  }

  /** True when a `tag` element's `k` attribute names one of the three tag columns. */
  predicate SetsTagColumn(attrs: map<string, string>)
  {
    Lookup(attrs, "k").Some? && IsTagKey(Lookup(attrs, "k").value)
  }

  /** A nested `tag` element applied to the open record: the column named by `k`
      receives `v` (None when `v` is absent) if it is a tag column; nothing else changes. */
  function ApplyTag(c: Changeset, attrs: map<string, string>): (d: Changeset)
    ensures forall name :: IsColumn(name) ==>
      Field(d, name) == if IsTagKey(name) && Lookup(attrs, "k") == Some(name) then Lookup(attrs, "v") else Field(c, name)
    ensures !SetsTagColumn(attrs) ==> d == c
  {
    if "k" !in attrs then c
    else if attrs["k"] == "comment" then c.(comment := Lookup(attrs, "v"))
    else if attrs["k"] == "created_by" then c.(createdBy := Lookup(attrs, "v"))
    else if attrs["k"] == "locale" then c.(locale := Lookup(attrs, "v"))
    else c
  }

  /** Two tags with the same key: the later one's value is what remains. */
  lemma RepeatedTagLastWins(c: Changeset, first: map<string, string>, second: map<string, string>)
    requires Lookup(first, "k") == Lookup(second, "k")
    ensures ApplyTag(ApplyTag(c, first), second) == ApplyTag(c, second)
  {
  }
}
