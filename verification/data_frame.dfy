/** A pandas DataFrame of numeric K-line columns, reduced to what the core
    reads: the number of rows and the columns by name, each one value per row. */
module DataFrame {

  datatype RawFrame = Frame(length: nat, columns: map<string, seq<real>>)

  /** Every column holds exactly one value per row. */
  type Frame = f: RawFrame | forall c :: c in f.columns ==> |f.columns[c]| == f.length
    witness Frame(0, map[])

  /** `DataFrame.empty`: no rows or no columns. */
  predicate IsEmpty(f: Frame) {
    f.length == 0 || |f.columns| == 0
  }

  /** `[c for c in required if c not in present]`. */
  function MissingNames(required: seq<string>, present: set<string>): (m: seq<string>)
    ensures |m| <= |required|
    ensures forall c :: c in m <==> c in required && c !in present
    ensures m == [] <==> forall c :: c in required ==> c in present
  {
    if required == [] then []
    else
      var rest := MissingNames(required[1..], present);
      assert forall c :: c in required <==> c == required[0] || c in required[1..];
      if required[0] in present then rest else [required[0]] + rest
  }

  /** Row i as a record from column name to value. */
  function Row(f: Frame, i: nat): (r: map<string, real>)
    requires i < f.length
    ensures r.Keys == f.columns.Keys
    ensures forall c :: c in r ==> r[c] == f.columns[c][i]
  {
    map c | c in f.columns :: f.columns[c][i]
  }
}
