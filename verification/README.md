# Elmer circuit builder: the Sparse Tableau pipeline in Dafny

This project models the part of the Elmer circuit builder that turns an
ordered list of two-terminal components into the matrices of an Elmer circuit
definition. A component is a resistor, voltage source, current source,
inductor, capacitor or Elmer component (a finite-element coil).

The pipeline is built twice, once on each of two tracks:

- **Numeric track:** the cells are numbers.
- **Text track:** the cells are the component names that the `.sif` file
  will carry.

Each track runs the same stages:

1. graph quantities (node count, edge count);
2. the partition of the components into one index list per class;
3. the signed incidence matrix without the reference row;
4. the diagonal branch-law matrices R, G, L, C and the source vector;
5. the Sparse Tableau system (stiffness, damping, source);
6. on the text track, the rewrite of float spellings into integer form;
7. the names of the unknowns and the rows of the Elmer component voltages;
8. the zero-row detectors;
9. the row exchanges of `elmer_format_matrix`. They leave the row of every
   `v_component(n)` unknown empty when three conditions hold: the pins are
   exactly the nodes 1..n, no component connects a node to itself, and no
   component other than an Elmer component has a name containing
   "v_component(" or starting with "component(". Component values do not
   matter.

The `ElmerComponent` coil class is modelled as a Dafny class. Its
configuration setters change its fields in place.

Modules, one per file:

- `Seqs`: index lists built by appending positions.
- `Matrices`: matrices as sequences of rows, and array helpers.
- `Netlist`: components, pins, the node count and the edge count.
- `Partition`: the class index lists and `check_elmer_instance`.
- `Incidence`: the incidence matrix on both tracks.
- `BranchLaws`: R, G, L, C and the source vector on both tracks.
- `SparseTableau`: the block layout and the circuit equations it encodes.
- `TableauText`: the text tableau and its integer-form rewrite.
- `ZeroRowDetection`: `get_zero_rows` and `get_zero_rows_str`.
- `TrackAgreement`: the two tracks of one circuit agree cell by cell.
- `UnknownNames`: `create_unknown_name`.
- `ElmerFormat`: `elmer_format_matrix`.
- `ElmerPipeline`: the stages composed end to end.
- `Coils`: the `ElmerComponent` class.

Component values are integers. The builders that fill numpy arrays in loops
are methods over Dafny arrays, and each is proved equal to a reference
function. Each reference function is then related to a per-component
definition of the coefficient it should hold. The getters of the
coil class are field reads, and the setters' contracts state what each
getter returns afterwards.

## Model

| member | source | states |
|---|---|---|
| Seqs.Listed | build/lib/elmer_circuitbuilder.py:608-615 | An index counts as listed only if it occurs in the list: the `for i in ind` loops visit exactly the listed indices |
| Seqs.ListedIsIn | build/lib/elmer_circuitbuilder.py:608-615 | Being visited by a loop over an index list is the same as membership in the list |
| Seqs.Shift | build/lib/elmer_circuitbuilder.py:1355-1358 | Moving every entry of an index list by an offset keeps its length and adds the offset entry by entry |
| Seqs.ShiftMembers | build/lib/elmer_circuitbuilder.py:1355-1358 | A moved index list holds exactly the moved entries, and an ascending list stays ascending |
| Seqs.Positions | build/lib/elmer_circuitbuilder.py:1054-1068 | Collects, in order, the indices at which a test holds. It has no contract of its own; Seqs.PositionsSpec states which indices and in what order |
| Seqs.PositionsSpec | build/lib/elmer_circuitbuilder.py:1054-1068 | The indices collected by appending `i` whenever a test holds are exactly those where it holds, strictly ascending, in range, and as many as the tests that held |
| Seqs.PositionsSnoc | build/lib/elmer_circuitbuilder.py:1054-1068 | One more loop step appends at most its own index |
| Seqs.PositionsAppend | build/lib/elmer_circuitbuilder.py:1355-1358 | Scanning two runs in a row yields the first run's indices followed by the second run's, moved past the first |
| Seqs.PositionsNone | build/lib/elmer_circuitbuilder.py:1355-1358 | A run in which no test holds contributes no index |
| Seqs.DistinctCard | build/lib/elmer_circuitbuilder.py:433-439 | A duplicate-free list is as long as its set of entries is large, so `len(unique_nodes)` counts distinct pins |
| Seqs.CountTrueAll | build/lib/elmer_circuitbuilder.py:1425-1432 | A counter over `cols` tests reaches `cols` exactly when every test held, and never exceeds it |
| Matrices.Cells | build/lib/elmer_circuitbuilder.py:604-606 | The value of a 2-D array has its shape and its cells |
| Matrices.Constant | build/lib/elmer_circuitbuilder.py:555-558 | A blank array (`np.zeros`, or `np.empty` blanked in a loop) has the given shape and the blank in every cell |
| Matrices.Combine | build/lib/elmer_circuitbuilder.py:505 | Adding two arrays of the same shape combines them cell by cell, with numeric `+` or string concatenation |
| Matrices.DeleteRow | build/lib/elmer_circuitbuilder.py:508 | `np.delete(.., k, 0)` keeps the rows before k, shifts the rows after k up by one, and has one row fewer |
| Matrices.Transpose | build/lib/elmer_circuitbuilder.py:1108 | The transpose has the swapped shape and cell (i, j) equal to cell (j, i) of the input |
| Matrices.Diagonal | build/lib/elmer_circuitbuilder.py:608-615 | After `for i in ind: a[i][i] = entries[i]` on a blank square array, only listed diagonal cells hold entries and every other cell is blank |
| Matrices.Extensionality | build/lib/elmer_circuitbuilder.py:618 | Two matrices of one shape with equal cells are equal |
| Matrices.NewMatrix | build/lib/elmer_circuitbuilder.py:604-606 | Allocates a fresh array of the given shape holding the blank everywhere |
| Matrices.ArrayOf | build/lib/elmer_circuitbuilder.py:1168 | `np.block` returns a fresh array holding exactly the assembled cells |
| Matrices.FillDiagonal | build/lib/elmer_circuitbuilder.py:608-615 | The fill loop writes `entries[i]` at (i, i) for each listed i and leaves every other cell as it was |
| Netlist.PinsMember | build/lib/elmer_circuitbuilder.py:433-437 | A pin is used exactly when some component has it as pin1 or pin2 |
| Netlist.AddPinSpec | build/lib/elmer_circuitbuilder.py:434-437 | The `if pin not in unique_nodes: append` step keeps the list duplicate-free and adds the pin to its set unless it is excluded |
| Netlist.FirstAppearanceSpec | build/lib/elmer_circuitbuilder.py:433-437 | The first-appearance list holds every used, non-excluded pin exactly once |
| Netlist.FirstAppearanceSnoc | build/lib/elmer_circuitbuilder.py:1328-1332 | One more component offers its pin1, then its pin2, to the list of first appearances |
| Netlist.FirstAppearanceLength | build/lib/elmer_circuitbuilder.py:433-439 | Its length is the number of used, non-excluded pins |
| Netlist.NodeRangeSpec | build/lib/elmer_circuitbuilder.py:487 | The node numbers 1..n form a set of n elements |
| Netlist.PinsCoverNodes | build/lib/elmer_circuitbuilder.py:433-439 | When all pins lie in 1..n and there are n distinct pins, every node 1..n is the pin of some component |
| Netlist.NumNodes | build/lib/elmer_circuitbuilder.py:417-439 | get_num_nodes returns the number of distinct pins |
| Netlist.NumEdges | build/lib/elmer_circuitbuilder.py:442-455 | get_num_edges is the number of components, one edge each; Partition.ListsCoverEdges shows the six class lists hold that many indices |
| Partition.Mask | build/lib/elmer_circuitbuilder.py:1054-1066 | Entry i of the class test is whether component i belongs to the class |
| Partition.ExactlyOneClass | build/lib/elmer_circuitbuilder.py:1055-1066 | No component passes two of the six `isinstance` tests |
| Partition.IndicesOfSpec | build/lib/elmer_circuitbuilder.py:1054-1068 | Index i is in a class list exactly when component i has that class; each list is strictly ascending and in range |
| Partition.IndicesDisjoint | build/lib/elmer_circuitbuilder.py:1054-1068 | The lists of two different classes share no index |
| Partition.IndicesOfSnoc | build/lib/elmer_circuitbuilder.py:1054-1066 | One more loop step extends exactly the list of that component's class, by its index |
| Partition.ListsCoverEdges | build/lib/elmer_circuitbuilder.py:1054-1068 | The six lists together hold get_num_edges indices, so every component is listed exactly once |
| Partition.GetIndices | build/lib/elmer_circuitbuilder.py:1032-1068 | get_indices returns the six class lists |
| Partition.AnyElmerComponent | build/lib/elmer_circuitbuilder.py:1980-1984 | `any(is_elmer_instances)` holds exactly when some component is an Elmer component |
| Partition.CheckElmerInstance | build/lib/elmer_circuitbuilder.py:1978-1985 | Fails with ElmerComponentsNotFound exactly when no component is an Elmer component, i.e. exactly when the Elmer index list is empty |
| Incidence.IncidenceMatrix | build/lib/elmer_circuitbuilder.py:458-508 | The numeric incidence matrix without the reference row is (n - 1) x e; Incidence.IncidenceCells gives its cells |
| Incidence.IncidenceMatrixStr | build/lib/elmer_circuitbuilder.py:512-569 | The text incidence matrix without the reference row is (n - 1) x e; Incidence.IncidenceCells gives its cells |
| Incidence.PlusPart | build/lib/elmer_circuitbuilder.py:495-499 | The plus array holds 1 at row pin1 - 1 of each column and the blank elsewhere |
| Incidence.MinusPart | build/lib/elmer_circuitbuilder.py:496-502 | The minus array holds -1 at row pin2 - 1 of each column and the blank elsewhere |
| Incidence.FullIncidenceWith | build/lib/elmer_circuitbuilder.py:505 | The sum of the two arrays is n x e |
| Incidence.IncidenceWith | build/lib/elmer_circuitbuilder.py:508 | Without the reference row the matrix is (n - 1) x e |
| Incidence.BuildIncidenceWith | build/lib/elmer_circuitbuilder.py:487-508 | The allocation, fill loops, addition and row deletion produce the reference incidence matrix, with pins and ref in 1..n |
| Incidence.BuildIncidence | build/lib/elmer_circuitbuilder.py:458-508 | get_incidence_matrix returns the numeric incidence matrix |
| Incidence.BuildIncidenceStr | build/lib/elmer_circuitbuilder.py:512-569 | get_incidence_matrix_str returns the text incidence matrix |
| Incidence.IncidenceCells | build/lib/elmer_circuitbuilder.py:487-508 | Row r of the reduced matrices is row r of the full matrix below the reference row and row r + 1 from it on; the other rows keep their order |
| Incidence.ColumnSumPrefix | build/lib/elmer_circuitbuilder.py:498-505 | The first k cells of a column sum to [pin1 - 1 < k] - [pin2 - 1 < k] |
| Incidence.IncidenceColumn | build/lib/elmer_circuitbuilder.py:487-505 | Before deletion, column j has +1 at pin1 - 1 and -1 at pin2 - 1 and 0 elsewhere; it is all zero for a self-loop; every column sums to 0 |
| Incidence.IncidenceTracksAgree | build/lib/elmer_circuitbuilder.py:487-569 | Where the pins differ, the text cell is "", "1", "-1" exactly where the numeric cell is 0, 1, -1; for a self-loop the numeric cell is 0 and the text cell is "" or "1-1" |
| BranchLaws.CoefTextAgree | build/lib/elmer_circuitbuilder.py:604-1027 | For a non-zero value, each text coefficient is empty exactly where the numeric one is 0; for a positive value it starts with "-" exactly where the numeric one is negative |
| BranchLaws.Repeat | build/lib/elmer_circuitbuilder.py:941-942 | A column of e equal entries |
| BranchLaws.Values | build/lib/elmer_circuitbuilder.py:609 | Entry i is the value of component i |
| BranchLaws.NegatedValues | build/lib/elmer_circuitbuilder.py:810 | Entry i is minus the value of component i |
| BranchLaws.Names | build/lib/elmer_circuitbuilder.py:668 | Entry i is the name of component i |
| BranchLaws.NegatedNames | build/lib/elmer_circuitbuilder.py:845 | Entry i is "-" followed by the name of component i |
| BranchLaws.ResistanceMatrix | build/lib/elmer_circuitbuilder.py:604-618 | R is e x e and zero off the diagonal; its diagonal is the sum of the value (listed resistors), 1 (listed current sources) and 1 (listed capacitors) |
| BranchLaws.ResistanceMatrixStr | build/lib/elmer_circuitbuilder.py:655-677 | The text R is e x e and "" off the diagonal; its diagonal is the concatenation of name, "1" and "1" for the same lists |
| BranchLaws.ConductanceMatrix | build/lib/elmer_circuitbuilder.py:710-726 | G is e x e and zero off the diagonal; its diagonal is the sum of -1 (resistors), 1 (voltage sources) and 1 (inductors) |
| BranchLaws.ConductanceMatrixStr | build/lib/elmer_circuitbuilder.py:761-782 | The text G is e x e with the concatenation of "-1", "1", "1" for the same lists on its diagonal and "" elsewhere |
| BranchLaws.InductanceMatrix | build/lib/elmer_circuitbuilder.py:808-811 | L is e x e with minus the value at listed diagonal cells and 0 elsewhere |
| BranchLaws.InductanceMatrixStr | build/lib/elmer_circuitbuilder.py:838-846 | The text L has "-" + name at listed diagonal cells and "" elsewhere |
| BranchLaws.CapacitanceMatrix | build/lib/elmer_circuitbuilder.py:871-874 | C is e x e with minus the value at listed diagonal cells and 0 elsewhere |
| BranchLaws.CapacitanceMatrixStr | build/lib/elmer_circuitbuilder.py:901-909 | The text C has "-" + name at listed diagonal cells and "" elsewhere |
| BranchLaws.Entries | build/lib/elmer_circuitbuilder.py:941-975 | A blank column after a fill loop holds the entry at each listed index and the blank elsewhere |
| BranchLaws.SourceVector | build/lib/elmer_circuitbuilder.py:941-977 | Entry i is -value if i is a listed voltage source, plus value if it is a listed current source |
| BranchLaws.SourceVectorStr | build/lib/elmer_circuitbuilder.py:1010-1027 | Entry i is "-" + name for a listed voltage source, concatenated with name for a listed current source |
| BranchLaws.FilledDiagonal | build/lib/elmer_circuitbuilder.py:604-615 | Allocating a blank e x e array and running one fill loop gives the diagonal matrix of that list |
| BranchLaws.FilledEntries | build/lib/elmer_circuitbuilder.py:941-975 | Allocating a blank column and running one fill loop gives the entries of that list |
| BranchLaws.BuildResistance | build/lib/elmer_circuitbuilder.py:574-620 | get_resistance_matrix returns R |
| BranchLaws.BuildResistanceStr | build/lib/elmer_circuitbuilder.py:623-679 | get_resistance_matrix_str returns the text R |
| BranchLaws.BuildConductance | build/lib/elmer_circuitbuilder.py:682-726 | get_conductance_matrix returns G |
| BranchLaws.BuildConductanceStr | build/lib/elmer_circuitbuilder.py:731-782 | get_conductance_matrix_str returns the text G |
| BranchLaws.BuildInductance | build/lib/elmer_circuitbuilder.py:787-811 | get_inductance_matrix returns L |
| BranchLaws.BuildInductanceStr | build/lib/elmer_circuitbuilder.py:816-846 | get_inductance_matrix_str returns the text L |
| BranchLaws.BuildCapacitance | build/lib/elmer_circuitbuilder.py:851-874 | get_capacitance_matrix returns C |
| BranchLaws.BuildCapacitanceStr | build/lib/elmer_circuitbuilder.py:879-909 | get_capacitance_matrix_str returns the text C |
| BranchLaws.BuildSource | build/lib/elmer_circuitbuilder.py:914-977 | get_rhs, for real values, returns the source vector |
| BranchLaws.BuildSourceStr | build/lib/elmer_circuitbuilder.py:982-1027 | get_rhs_str returns the text source vector |
| BranchLaws.IndicesValid | build/lib/elmer_circuitbuilder.py:1054-1068 | Every index from get_indices addresses a component and a row of an e x e array |
| BranchLaws.ResistanceByKind | build/lib/elmer_circuitbuilder.py:604-677 | With the get_indices lists, diagonal entry i of R is the value of a resistor, 1 for a current source or capacitor and 0 otherwise; the text R matches per kind |
| BranchLaws.ConductanceByKind | build/lib/elmer_circuitbuilder.py:710-782 | Diagonal entry i of G is -1 for a resistor, 1 for a voltage source or inductor and 0 otherwise; the text G matches per kind |
| BranchLaws.StorageByKind | build/lib/elmer_circuitbuilder.py:808-909 | L holds minus the inductances and C minus the capacitances on their diagonals, 0 for every other kind; the text ones match |
| BranchLaws.SourceVectorsByKind | build/lib/elmer_circuitbuilder.py:941-1027 | Source entry i is +value for a current source, -value for a voltage source and 0 otherwise; the text vector matches per kind |
| BranchLaws.AllIndicesValid | build/lib/elmer_circuitbuilder.py:1054-1068 | All six lists are valid for the builders |
| BranchLaws.Membership | build/lib/elmer_circuitbuilder.py:1054-1066 | Component i is listed in exactly the list of its own kind |
| SparseTableau.Stiffness | build/lib/elmer_circuitbuilder.py:1107-1112 | Mmat1 is square of size (n - 1) + 2e, with rows [A 0 0], then [0 -I Aᵀ], then [R G 0], cell by cell |
| SparseTableau.Damping | build/lib/elmer_circuitbuilder.py:1118-1119 | Mmat2 is square of the same size, zero except for the last e rows [L C 0] |
| SparseTableau.SourceColumn | build/lib/elmer_circuitbuilder.py:1115 | bvec is zero in the first (n - 1) + e rows and holds f in the last e |
| SparseTableau.TableauMatrix | build/lib/elmer_circuitbuilder.py:1071-1121 | get_tableau_matrix returns arrays of the sizes above |
| SparseTableau.DotCons | build/lib/elmer_circuitbuilder.py:1107-1119 | A row product is its first term plus the product of the rest |
| SparseTableau.DotAppend | build/lib/elmer_circuitbuilder.py:1107-1119 | The product of a row made of two blocks is the sum of the block products |
| SparseTableau.DotAppend3 | build/lib/elmer_circuitbuilder.py:1107-1119 | Likewise for three blocks |
| SparseTableau.DotZero | build/lib/elmer_circuitbuilder.py:1107 | A zero block contributes nothing |
| SparseTableau.DotNegUnit | build/lib/elmer_circuitbuilder.py:1108 | A row of -I picks out minus one unknown |
| SparseTableau.StiffnessKclRow | build/lib/elmer_circuitbuilder.py:1107 | A current-law row applied to (i, v, u) gives (A i)_k |
| SparseTableau.KvlRowBlocks | build/lib/elmer_circuitbuilder.py:1108 | Voltage-law row k is zeros, minus unit row k, then row k of Aᵀ |
| SparseTableau.StiffnessKvlRow | build/lib/elmer_circuitbuilder.py:1108 | A voltage-law row gives (Aᵀ u)_k - v_k |
| SparseTableau.StiffnessBranchRow | build/lib/elmer_circuitbuilder.py:1109 | A branch-law row gives (R i)_k + (G v)_k |
| SparseTableau.DampingUpperRow | build/lib/elmer_circuitbuilder.py:1118 | The damping rows over the Kirchhoff rows contribute nothing |
| SparseTableau.DampingBranchRow | build/lib/elmer_circuitbuilder.py:1119 | A damping branch-law row gives (L di/dt)_k + (C dv/dt)_k |
| SparseTableau.KclResidual | build/lib/elmer_circuitbuilder.py:1107-1119 | Current-law row k of stiffness·x + damping·dx - source is (A i)_k |
| SparseTableau.KvlResidual | build/lib/elmer_circuitbuilder.py:1107-1119 | Voltage-law row k of the residual is (Aᵀ u)_k - v_k |
| SparseTableau.BranchResidual | build/lib/elmer_circuitbuilder.py:1107-1119 | Branch-law row k of the residual is (R i + G v + L di/dt + C dv/dt - f)_k |
| SparseTableau.SolvesCurrentLaw | build/lib/elmer_circuitbuilder.py:1107-1119 | Any solution of the system satisfies Kirchhoff's current law A i = 0 |
| SparseTableau.SolvesVoltageLaw | build/lib/elmer_circuitbuilder.py:1107-1119 | Any solution satisfies Kirchhoff's voltage law v = Aᵀ u |
| SparseTableau.BranchRowHolds | build/lib/elmer_circuitbuilder.py:1107-1119 | Branch-law row k of a solution is the branch law of edge k |
| SparseTableau.SolvesBranchLaw | build/lib/elmer_circuitbuilder.py:1107-1119 | Any solution satisfies R i + G v + L di/dt + C dv/dt = f |
| SparseTableau.TableauComplete | build/lib/elmer_circuitbuilder.py:1107-1119 | Currents, voltages and potentials that obey both Kirchhoff laws and the branch laws solve the system |
| SparseTableau.KclRowSolved | build/lib/elmer_circuitbuilder.py:1107 | A current-law row holds when the currents obey the current law |
| SparseTableau.KvlRowSolved | build/lib/elmer_circuitbuilder.py:1108 | A voltage-law row holds when the voltages obey the voltage law |
| SparseTableau.BranchRowSolved | build/lib/elmer_circuitbuilder.py:1109-1119 | A branch-law row holds when its edge obeys its branch law |
| SparseTableau.TableauEquations | build/lib/elmer_circuitbuilder.py:1071-1121 | A vector solves the assembled system if and only if it obeys the current law, the voltage law and the branch laws |
| TableauText.CanonZero | build/lib/elmer_circuitbuilder.py:1171-1181 | The zero rewrite of one cell: "", "0.0" and "-0.0" become "0". It has no contract of its own; TableauText.CanonZeroSpec states its properties |
| TableauText.Canon | build/lib/elmer_circuitbuilder.py:1188-1196 | The full rewrite of one matrix cell: the zero rewrite, then "-1.0" to "-1", then "1.0" to "1". It has no contract of its own; TableauText.CanonSpec states its properties |
| TableauText.CanonMatrix | build/lib/elmer_circuitbuilder.py:1187-1207 | The cleanup passes rewrite every cell of a text matrix, in its shape |
| TableauText.CanonRow | build/lib/elmer_circuitbuilder.py:1188-1196 | The rewrite of one row, cell by cell |
| TableauText.CanonZeroColumn | build/lib/elmer_circuitbuilder.py:1171-1181 | The zero rewrite of a text column, entry by entry |
| TableauText.CanonZeroSpec | build/lib/elmer_circuitbuilder.py:1172-1174 | The zero rewrite leaves no "", "0.0" or "-0.0", changes no other cell, yields "0" exactly for zero spellings, and is idempotent |
| TableauText.CanonSpec | build/lib/elmer_circuitbuilder.py:1190-1196 | The full cell rewrite leaves no float or empty spelling, changes no other cell, reads "0", "-1", "1" exactly for their spellings, and is idempotent |
| TableauText.TableauStrOf | build/lib/elmer_circuitbuilder.py:1124-1209 | get_tableau_matrix_str returns arrays of the same sizes as the numeric tableau |
| TableauText.TableauStrSpec | build/lib/elmer_circuitbuilder.py:1161-1207 | After cleanup no cell of M1, M2 or b is "", "0.0" or "-0.0", no M1 or M2 cell is "1.0" or "-1.0", and each cell is the rewritten block cell at its place |
| TableauText.SourceTwice | build/lib/elmer_circuitbuilder.py:1171-1181 | Rewriting f's zeros before assembling b and b's zeros afterwards is the same as one rewrite of the assembled column, and leaves no zero spelling |
| TableauText.CanonicalizeCells | build/lib/elmer_circuitbuilder.py:1187-1207 | The double loop rewrites every cell of the array in place |
| TableauText.CanonZeroInPlace | build/lib/elmer_circuitbuilder.py:1171-1174 | The loop over f rewrites its zero spellings in place |
| TableauText.CanonZeroEntries | build/lib/elmer_circuitbuilder.py:1178-1181 | The loop over b leaves no zero spelling and replaces only zero spellings, each by "0" |
| TableauText.BuildTableauStr | build/lib/elmer_circuitbuilder.py:1124-1209 | get_tableau_matrix_str returns the text system and rewrites the caller's f in place |
| ZeroRowDetection.ZeroRows | build/lib/elmer_circuitbuilder.py:1363-1391 | get_zero_rows as written: the positions of the rows whose sum M1 + M2 + b vanishes. It has no contract of its own; ZeroRowDetection.ZeroRowsSpec states which rows, ascending |
| ZeroRowDetection.ZeroRowsExact | build/lib/elmer_circuitbuilder.py:1363-1391 | The detector its documentation describes: the positions of the rows zero in all three arrays. It has no contract of its own; ZeroRowDetection.ZeroRowsSpec states which rows, ascending, and that each is also reported by get_zero_rows |
| ZeroRowDetection.SumMask | build/lib/elmer_circuitbuilder.py:1384-1386 | Row i is flagged exactly when M1 + M2 + b has no non-zero cell in it |
| ZeroRowDetection.ExactMask | build/lib/elmer_circuitbuilder.py:1363-1391 | Row i is flagged exactly when M1, M2 and b are all zero in it |
| ZeroRowDetection.ZeroRowsSpec | build/lib/elmer_circuitbuilder.py:1384-1389 | get_zero_rows reports, ascending, exactly the rows whose sum is zero; every row that is zero in all three arrays is among them |
| ZeroRowDetection.SumCancels | build/lib/elmer_circuitbuilder.py:1384-1386 | For M1 = [[1]], M2 = [[0]], b = [-1], get_zero_rows reports row 0, though that row is not zero |
| ZeroRowDetection.StripLeading | build/lib/elmer_circuitbuilder.py:1420 | `lstrip("-")`. It has no contract of its own; ZeroRowDetection.LeadingSpec states what it removes |
| ZeroRowDetection.StripTrailing | build/lib/elmer_circuitbuilder.py:1420 | `rstrip("-")`. It has no contract of its own; ZeroRowDetection.TrailingSpec states what it removes |
| ZeroRowDetection.StripMinus | build/lib/elmer_circuitbuilder.py:1420-1428 | `strip("-")` on one cell. It has no contract of its own; ZeroRowDetection.StripSpec states what it removes |
| ZeroRowDetection.StripSpec | build/lib/elmer_circuitbuilder.py:1420-1428 | `strip("-")` leaves no minus at either end, keeps a string with none there, keeps its first character, and ignores a leading minus |
| ZeroRowDetection.LeadingSpec | build/lib/elmer_circuitbuilder.py:1420 | Stripping leading minus signs leaves none at the front and keeps the last character |
| ZeroRowDetection.TrailingSpec | build/lib/elmer_circuitbuilder.py:1420 | Stripping trailing minus signs leaves none at the end and keeps the first character |
| ZeroRowDetection.ZeroTextCases | build/lib/elmer_circuitbuilder.py:1423-1430 | "0", "0.0" and "-0.0" pass the zero test; "", "1", "-1", "1-1" and any name or negated name do not |
| ZeroRowDetection.ZeroTextMask | build/lib/elmer_circuitbuilder.py:1418-1433 | Row i is flagged exactly when all its cells pass the zero test |
| ZeroRowDetection.ZeroRowsStrOf | build/lib/elmer_circuitbuilder.py:1394-1437 | What get_zero_rows_str reports: the positions of the rows whose cells and source entry all read as zero. It has no contract of its own; ZeroRowDetection.ZeroRowsStrSpec states which rows, ascending, and ZeroRowDetection.GetZeroRowsStr is proved to return it |
| ZeroRowDetection.ZeroRowsStrSpec | build/lib/elmer_circuitbuilder.py:1415-1437 | get_zero_rows_str reports, ascending, exactly the rows whose M1, M2 and b cells all pass the zero test |
| ZeroRowDetection.GetZeroRowsStr | build/lib/elmer_circuitbuilder.py:1394-1437 | The nested loops compute that list |
| ZeroRowDetection.CountZeroCells | build/lib/elmer_circuitbuilder.py:1419-1426 | `zero_counter` reaches cols exactly when every column's two cells pass the zero test |
| ZeroRowDetection.ZeroRowsTracksAgree | build/lib/elmer_circuitbuilder.py:1384-1437 | On a text system that agrees with a numeric one about which cells are zero, get_zero_rows_str reports exactly the rows that are zero in all three numeric arrays |
| TrackAgreement.CircuitTableau | build/lib/elmer_circuitbuilder.py:2147-2170 | The numeric system of a circuit has (n - 1) + 2e rows and columns |
| TrackAgreement.CircuitTableauStr | build/lib/elmer_circuitbuilder.py:2228-2251 | The text system of a circuit has the same shape |
| TrackAgreement.FillersAgree | build/lib/elmer_circuitbuilder.py:1161-1207 | The `np.block` fillers "0.0", "-0.0", "-1.0" are rewritten to agree with 0, 0, -1 |
| TrackAgreement.StiffnessAgree | build/lib/elmer_circuitbuilder.py:1107-1168 | Agreeing blocks give agreeing stiffness matrices |
| TrackAgreement.DampingAgree | build/lib/elmer_circuitbuilder.py:1118-1185 | Agreeing blocks give agreeing damping matrices |
| TrackAgreement.SourceAgree | build/lib/elmer_circuitbuilder.py:1115-1181 | Agreeing source vectors give agreeing source columns |
| TrackAgreement.NamesKept | build/lib/elmer_circuitbuilder.py:1172-1196 | A name that starts with a letter, with or without a leading minus, is left alone by the rewrite and is not "0" |
| TrackAgreement.ComponentAgree | build/lib/elmer_circuitbuilder.py:667-1025 | Per component, each rewritten text coefficient reads "0" exactly where the number is 0 and starts with "-" exactly where it is negative |
| TrackAgreement.IncidenceAgree | build/lib/elmer_circuitbuilder.py:487-569 | Without self-loops the two incidence matrices agree cell by cell |
| TrackAgreement.ResistiveAgree | build/lib/elmer_circuitbuilder.py:604-782 | R and G of the two tracks agree cell by cell |
| TrackAgreement.ResistanceAgree | build/lib/elmer_circuitbuilder.py:604-677 | R of the two tracks agree cell by cell |
| TrackAgreement.ConductanceAgree | build/lib/elmer_circuitbuilder.py:710-782 | G of the two tracks agree cell by cell |
| TrackAgreement.StorageAgree | build/lib/elmer_circuitbuilder.py:808-909 | L and C of the two tracks agree cell by cell |
| TrackAgreement.SourcesAgree | build/lib/elmer_circuitbuilder.py:941-1027 | The source vectors of the two tracks agree entry by entry |
| TrackAgreement.TableauAgree | build/lib/elmer_circuitbuilder.py:1107-1207 | Agreeing blocks of the expected shapes give a text system that agrees with the numeric system in all three arrays |
| TrackAgreement.BlocksRelated | build/lib/elmer_circuitbuilder.py:487-1027 | The blocks of a circuit without self-loops, with well-named, positive-valued components, have the expected shapes and agree across the tracks |
| TrackAgreement.TracksAgree | build/lib/elmer_circuitbuilder.py:1107-1207 | For such a circuit every cell of the text system reads "0", passes the zero test, and starts with "-" exactly where the numeric cell is 0 or negative respectively |
| UnknownNames.NatToStringChars | build/lib/elmer_circuitbuilder.py:1337 | `str(n)` of a natural number is non-empty and made of digits |
| UnknownNames.IntToStringChars | build/lib/elmer_circuitbuilder.py:1337 | `str(k)` is non-empty and made of digits and a minus sign |
| UnknownNames.ContainsSpec | build/lib/elmer_circuitbuilder.py:1357 | Python's `p in s` holds exactly when p occurs at some offset of s |
| UnknownNames.CurrentNamesOf | build/lib/elmer_circuitbuilder.py:1334-1340 | One current name per component, in component order |
| UnknownNames.VoltageNamesOf | build/lib/elmer_circuitbuilder.py:1342-1348 | One voltage name per component, in component order |
| UnknownNames.NodeNamesOf | build/lib/elmer_circuitbuilder.py:1350-1353 | One potential name per node, in the order given |
| UnknownNames.UnknownNamesOf | build/lib/elmer_circuitbuilder.py:1323-1353 | 2e + k names for e components and k unknown nodes |
| UnknownNames.CurrentNameAt | build/lib/elmer_circuitbuilder.py:1334-1340 | Unknown j is the current of component j |
| UnknownNames.VoltageNameAt | build/lib/elmer_circuitbuilder.py:1342-1348 | Unknown e + j is the voltage of component j |
| UnknownNames.NodeNameAt | build/lib/elmer_circuitbuilder.py:1350-1353 | Unknown 2e + k is the potential of the k-th unknown node in first-appearance order |
| UnknownNames.UnknownNodesSpec | build/lib/elmer_circuitbuilder.py:1328-1332 | The unknown nodes are the used pins other than the reference node, each once |
| UnknownNames.ComponentVoltageRows | build/lib/elmer_circuitbuilder.py:1355-1358 | The intended rows: r is listed exactly when it is the voltage unknown e + j of an Elmer component j; the list is ascending |
| UnknownNames.CollectUnknownNodes | build/lib/elmer_circuitbuilder.py:1328-1332 | The first loop collects the unknown nodes |
| UnknownNames.ScanVCompRows | build/lib/elmer_circuitbuilder.py:1355-1358 | The last loop lists the index of every name that contains "v_component(" |
| UnknownNames.CurrentNames | build/lib/elmer_circuitbuilder.py:1334-1340 | The current loop produces the current names |
| UnknownNames.AppendVoltageNames | build/lib/elmer_circuitbuilder.py:1342-1348 | The voltage loop keeps the earlier names and appends the voltage names |
| UnknownNames.AppendNodeNames | build/lib/elmer_circuitbuilder.py:1350-1353 | The potential loop keeps the earlier names and appends the potential names |
| UnknownNames.CreateUnknownName | build/lib/elmer_circuitbuilder.py:1298-1360 | create_unknown_name returns the reference names and the rows its scan finds |
| UnknownNames.OccursChar | build/lib/elmer_circuitbuilder.py:1357 | An occurrence fixes each character it covers |
| UnknownNames.OccursFromChars | build/lib/elmer_circuitbuilder.py:1357 | Matching characters make an occurrence |
| UnknownNames.NoFirstChar | build/lib/elmer_circuitbuilder.py:1357 | A string without the pattern's first character does not contain it |
| UnknownNames.NotInTail | build/lib/elmer_circuitbuilder.py:1357 | An occurrence past a prefix lies in the middle part when the pattern does not end in a quote |
| UnknownNames.NodeNamePlain | build/lib/elmer_circuitbuilder.py:1352 | No potential name contains "v_component(" |
| UnknownNames.ElmerNamesFlagged | build/lib/elmer_circuitbuilder.py:1336-1345 | An Elmer component's current name is not flagged; its voltage name is |
| UnknownNames.PlainCurrentName | build/lib/elmer_circuitbuilder.py:1339 | Another component's current name is flagged only if its own name carries the marker |
| UnknownNames.VoltageMarkerAtOne | build/lib/elmer_circuitbuilder.py:1347 | "v_" + name carries the marker right after its quote exactly when the name starts with "component(" |
| UnknownNames.PlainVoltageName | build/lib/elmer_circuitbuilder.py:1347 | Another component's voltage name is not flagged unless its name carries the marker or starts with "component(" |
| UnknownNames.VoltageHeadClear | build/lib/elmer_circuitbuilder.py:1347 | Unless the name starts with "component(", the marker starts at none of the first three characters of "v_ + name |
| UnknownNames.ComponentNamesPlain | build/lib/elmer_circuitbuilder.py:1334-1347 | For a component with a plain name, the current name is never flagged and the voltage name is flagged exactly for an Elmer component |
| UnknownNames.NameFlagged | build/lib/elmer_circuitbuilder.py:1323-1358 | With plain names, unknown i is flagged exactly when it is the voltage of an Elmer component |
| UnknownNames.PositionsBetween | build/lib/elmer_circuitbuilder.py:1355-1358 | Flags placed between two unflagged runs are found moved past the first run |
| UnknownNames.VCompRowsAsWritten | build/lib/elmer_circuitbuilder.py:1355-1358 | The name scan as written: the positions of the unknowns whose name contains `v_component`. It has no contract of its own; UnknownNames.ScanVCompRows states which rows, and UnknownNames.ScanBelowAnyNames bounds them |
| UnknownNames.ScanBelowAnyNames | build/lib/elmer_circuitbuilder.py:1323-1358 | Whatever the component names, the scan reports only current and voltage unknowns (indices below 2e): no potential name carries the marker |
| UnknownNames.VCompRowsAgree | build/lib/elmer_circuitbuilder.py:1355-1358 | With plain names the scan finds exactly the intended voltage rows |
| UnknownNames.FlaggedRow | build/lib/elmer_circuitbuilder.py:1355-1358 | A name containing the marker is reported |
| UnknownNames.VCompRowsMisclassify | build/lib/elmer_circuitbuilder.py:1355-1358 | A non-Elmer component named "component(...)" has its voltage row reported, though it is not an Elmer component voltage |
| UnknownNames.VoltageRowFlagged | build/lib/elmer_circuitbuilder.py:1347-1358 | The voltage row of a component whose voltage name carries the marker is reported |
| UnknownNames.VoltageNameFlagged | build/lib/elmer_circuitbuilder.py:1347 | A name starting with "component(" makes the voltage name carry the marker |
| ElmerFormat.Swap | build/lib/elmer_circuitbuilder.py:1291-1293 | `x[[a, b]] = x[[b, a]]` keeps the length and exchanges entries a and b |
| ElmerFormat.SwapPrefix | build/lib/elmer_circuitbuilder.py:1290-1293 | The first k exchanges keep the length |
| ElmerFormat.Identity | build/lib/elmer_circuitbuilder.py:1290 | The row numbers 0..n-1 in order |
| ElmerFormat.ElmerFormatMatrix | build/lib/elmer_circuitbuilder.py:1248-1295 | Works on copies. Output row i of stiffness, damping and source is the same input row RowOrder[i]: the exchanges of zip(zero_rows, vcomp_rows), pairs beyond the shorter list ignored |
| ElmerFormat.FollowsOrder | build/lib/elmer_circuitbuilder.py:1290-1293 | Any array rearranged by the exchanges is rearranged as the row numbers are |
| ElmerFormat.RowOrderPermutes | build/lib/elmer_circuitbuilder.py:1290-1293 | The row order is a permutation, so no equation is lost or duplicated |
| ElmerFormat.SwapMultiset | build/lib/elmer_circuitbuilder.py:1291 | One exchange permutes the rows |
| ElmerFormat.Untouched | build/lib/elmer_circuitbuilder.py:1290-1293 | A row named in no pair stays where it was |
| ElmerFormat.VoltageRowReceivesZeroRow | build/lib/elmer_circuitbuilder.py:1290-1293 | For ascending lists with each voltage row at or before its zero row, the t-th voltage row ends up holding the t-th zero row |
| ElmerFormat.ExchangeSurvives | build/lib/elmer_circuitbuilder.py:1290-1293 | The t-th exchange's result at vs[t] survives when no earlier pair touched zs[t] and no later pair touches vs[t] |
| ElmerFormat.AlignedApart | build/lib/elmer_circuitbuilder.py:1290-1293 | In such lists, no earlier pair names the t-th zero row and no later pair names the t-th voltage row |
| ElmerPipeline.CurrentBlockCells | build/lib/elmer_circuitbuilder.py:1107 | The current-law rows hold the incidence cells |
| ElmerPipeline.VoltageBlockCells | build/lib/elmer_circuitbuilder.py:1108 | The voltage-law row of branch k has -1 under v_k |
| ElmerPipeline.BranchBlockCells | build/lib/elmer_circuitbuilder.py:1109-1119 | The branch-law rows hold each component's R, G, L, C coefficients |
| ElmerPipeline.SourceBlockCells | build/lib/elmer_circuitbuilder.py:1115 | The source column holds each component's source coefficient below the zeros |
| ElmerPipeline.CircuitCellsHold | build/lib/elmer_circuitbuilder.py:2147-2170 | The numeric system of a circuit has all of those cells |
| ElmerPipeline.CurrentRowNonZero | build/lib/elmer_circuitbuilder.py:487-508 | With n distinct pins, all in 1..n, the reference one of them and no self-loop, no current-law row is zero, whatever the names and values |
| ElmerPipeline.ExactZeroRow | build/lib/elmer_circuitbuilder.py:1107-1119 | A row is zero in all three arrays exactly when it is the branch-law row of an Elmer component |
| ElmerPipeline.MaskSplits | build/lib/elmer_circuitbuilder.py:1386 | Such a zero mask is a run of false followed by the Elmer mask |
| ElmerPipeline.MaskPositions | build/lib/elmer_circuitbuilder.py:1386-1389 | Its positions are the Elmer indices moved past the run |
| ElmerPipeline.ZeroMask | build/lib/elmer_circuitbuilder.py:1107-1119 | The zero mask of a circuit's system is false on Kirchhoff rows and marks Elmer branch-law rows |
| ElmerPipeline.CellZeroRows | build/lib/elmer_circuitbuilder.py:1107-1119 | The rows zero in all three arrays are exactly the Elmer branch-law rows, ascending |
| ElmerPipeline.UpperBlockCellsStr | build/lib/elmer_circuitbuilder.py:1161-1196 | After the rewrite, the current-law rows of the text system hold the rewritten incidence text and the voltage-law row of branch k holds "-1" under v_k |
| ElmerPipeline.BranchBlockCellsStr | build/lib/elmer_circuitbuilder.py:1165-1207 | Given diagonal text blocks, the branch-law row of component k holds its rewritten R and G texts under i_k and v_k in the stiffness matrix, its L and C texts in the damping matrix, and "0" elsewhere |
| ElmerPipeline.BranchStiffnessStr | build/lib/elmer_circuitbuilder.py:1165-1196 | The stiffness half of that: rewritten R text under i_k, rewritten G text under v_k, "0" elsewhere |
| ElmerPipeline.BranchDampingStr | build/lib/elmer_circuitbuilder.py:1184-1207 | The damping half: rewritten L text under i_k, rewritten C text under v_k, "0" elsewhere |
| ElmerPipeline.BranchStiffnessCell | build/lib/elmer_circuitbuilder.py:1165-1196 | One cell of the stiffness half, as above |
| ElmerPipeline.BranchDampingCell | build/lib/elmer_circuitbuilder.py:1184-1207 | One cell of the damping half, as above |
| ElmerPipeline.StiffnessCellLaidOut | build/lib/elmer_circuitbuilder.py:1161-1196 | A stiffness cell of the text system is the rewrite of the block cell the layout puts there |
| ElmerPipeline.DampingCellLaidOut | build/lib/elmer_circuitbuilder.py:1184-1207 | A damping cell of the text system is the rewrite of the block cell the layout puts there |
| ElmerPipeline.BranchCellStr | build/lib/elmer_circuitbuilder.py:1188-1196 | A laid-out branch-law cell rewrites to the first text under i_k, the second under v_k and "0" elsewhere, since "" and "0.0" both rewrite to "0" |
| ElmerPipeline.SourceBlockCellsStr | build/lib/elmer_circuitbuilder.py:1171-1181 | Entry e + (n - 1) + k of the text source column is the zero rewrite of component k's source text |
| ElmerPipeline.SourceCellLaidOut | build/lib/elmer_circuitbuilder.py:1171-1181 | The two zero rewrites around the assembly leave f[k], rewritten once, at its place |
| ElmerPipeline.CircuitCellsStrHold | build/lib/elmer_circuitbuilder.py:2228-2251 | The text system of any circuit with the reference in 1..n has all of those cells, whatever its names and values |
| ElmerPipeline.PinTextNonZero | build/lib/elmer_circuitbuilder.py:512-569 | The rewritten incidence text of a branch at one of its two distinct pins is "1" or "-1", which fails the zero test |
| ElmerPipeline.CurrentRowNonZeroStr | build/lib/elmer_circuitbuilder.py:1161-1162 | In an admissible circuit every current-law row of the text system has a cell that fails the zero test |
| ElmerPipeline.CurrentRowZeroStr | build/lib/elmer_circuitbuilder.py:1415-1437 | So get_zero_rows_str never reports a current-law row |
| ElmerPipeline.BranchTextNonZero | build/lib/elmer_circuitbuilder.py:655-782 | A resistor, voltage source or inductor has a rewritten G text of "1" or "-1"; a current source or capacitor a rewritten R text of "1"; both fail the zero test |
| ElmerPipeline.ElmerTextsZero | build/lib/elmer_circuitbuilder.py:655-1027 | All four coefficient texts of an Elmer component rewrite to "0", and so does its source text |
| ElmerPipeline.RowNotZeroAt | build/lib/elmer_circuitbuilder.py:1418-1433 | A row with one stiffness cell that fails the zero test is not reported |
| ElmerPipeline.RowZeroAt | build/lib/elmer_circuitbuilder.py:1418-1433 | A row that is "0" in every cell of all three arrays is reported |
| ElmerPipeline.VoltageRowNonZeroStr | build/lib/elmer_circuitbuilder.py:1163-1164 | A voltage-law row holds "-1", so it is never reported |
| ElmerPipeline.BranchCellAt | build/lib/elmer_circuitbuilder.py:1165-1207 | One cell of the branch-law row of component k, in both matrices |
| ElmerPipeline.ElmerRowZeroStr | build/lib/elmer_circuitbuilder.py:1165-1207 | The branch-law row of an Elmer component is "0" throughout and is reported |
| ElmerPipeline.OtherRowNonZeroStr | build/lib/elmer_circuitbuilder.py:1165-1196 | The branch-law row of any other component has a cell that fails the zero test and is not reported |
| ElmerPipeline.TextZeroRow | build/lib/elmer_circuitbuilder.py:1394-1437 | In an admissible circuit, whatever its names and values, row i of the text system passes the zero test exactly when it is the branch-law row of an Elmer component |
| ElmerPipeline.TextZeroRowsAll | build/lib/elmer_circuitbuilder.py:1394-1437 | The same, for every row at once |
| ElmerPipeline.CircuitZeroExact | build/lib/elmer_circuitbuilder.py:1394-1437 | The text system a circuit with the structural conditions lays out has the right shape and reads as zero exactly at its Elmer branch-law rows |
| ElmerPipeline.ZeroMaskAt | build/lib/elmer_circuitbuilder.py:1415-1433 | Each entry of the zero mask then marks exactly the Elmer branch-law rows |
| ElmerPipeline.ZeroMaskIsElmer | build/lib/elmer_circuitbuilder.py:1415-1433 | The zero mask is then false on the first (n - 1) + e rows and marks the Elmer components after them |
| ElmerPipeline.TextZeroRows | build/lib/elmer_circuitbuilder.py:1394-1437 | get_zero_rows_str then reports exactly the Elmer branch-law rows, ascending |
| ElmerPipeline.AgreeingZeroRows | build/lib/elmer_circuitbuilder.py:1415-1437 | An agreeing text system has the same zero rows |
| ElmerPipeline.ZeroListBelow | build/lib/elmer_circuitbuilder.py:1415-1437 | Every reported zero row lies within the system |
| ElmerPipeline.ZeroListReadsZero | build/lib/elmer_circuitbuilder.py:1415-1437 | Every reported zero row reads as zero in all three arrays |
| ElmerPipeline.VoltageListBelow | build/lib/elmer_circuitbuilder.py:1355-1358 | Whatever the component names, every reported voltage row lies within a system of at least 2e rows |
| ElmerPipeline.ElmerSystemOf | build/lib/elmer_circuitbuilder.py:2254-2260 | elmer_format_matrix on a text system of at least 2e rows, with the scan's voltage rows and the zero rows, keeps the row count, whatever the names |
| ElmerPipeline.ElmerSystem | build/lib/elmer_circuitbuilder.py:2228-2260 | For any reference node in 1..n and any names, the text system of a circuit after elmer_format_matrix keeps the row count |
| ElmerPipeline.RowMoved | build/lib/elmer_circuitbuilder.py:1291-1293 | A zero row still reads as zero once moved |
| ElmerPipeline.ClearedRows | build/lib/elmer_circuitbuilder.py:1290-1293 | With aligned lists of equal length, every voltage row reads as zero afterwards |
| ElmerPipeline.ListsAligned | build/lib/elmer_circuitbuilder.py:1355-1437 | Zero rows e + (n-1) + j and voltage rows e + j are equally many, ascending, and each voltage row precedes its zero row |
| ElmerPipeline.SystemRowsCleared | build/lib/elmer_circuitbuilder.py:2228-2260 | For such a text system every reported voltage row reads as zero after elmer_format_matrix |
| ElmerPipeline.AgreeingSystemCleared | build/lib/elmer_circuitbuilder.py:2228-2260 | For any text system agreeing with a circuit's numeric system, every voltage row reads as zero afterwards |
| ElmerPipeline.VoltageRowsCleared | build/lib/elmer_circuitbuilder.py:2228-2260 | The design goal: for a circuit whose pins are exactly 1..n, with no self-loop and plain names, whatever its values, there are as many voltage rows as Elmer components, and each reads as zero in all three arrays after elmer_format_matrix |
| Coils.ElmerComponent.AsComponent | build/lib/elmer_circuitbuilder.py:207-248 | A coil is, to the pipeline, an Elmer component and nothing else |
| Coils.ElmerComponent.constructor | build/lib/elmer_circuitbuilder.py:207-248 | A new coil is massive, 2D, one turn, neither open nor closed, with no terminals; a missing master body list becomes empty |
| Coils.ElmerComponent.Massive | build/lib/elmer_circuitbuilder.py:250-252 | Only the coil type changes, to "Massive" |
| Coils.ElmerComponent.Stranded | build/lib/elmer_circuitbuilder.py:254-270 | The coil type, turns and resistance change; everything else is kept |
| Coils.ElmerComponent.Foil | build/lib/elmer_circuitbuilder.py:272-288 | The coil type becomes "Foil winding" and turns and thickness change; everything else is kept |
| Coils.ElmerComponent.Is3D | build/lib/elmer_circuitbuilder.py:290-296 | Only the dimension changes, to "3D" |
| Coils.ElmerComponent.IsClosed | build/lib/elmer_circuitbuilder.py:298-302 | Marks the coil closed and returns true; terminals set earlier are kept |
| Coils.ElmerComponent.IsOpen | build/lib/elmer_circuitbuilder.py:304-310 | Records both terminal boundaries, marks the coil open and returns false |
| Coils.ElmerComponent.OpenTerminals | build/lib/elmer_circuitbuilder.py:334-337 | Always two terminals, both unset on a valid coil not yet declared open or closed |
| Coils.ElmerComponent.CoilType | build/lib/elmer_circuitbuilder.py:314-317 | On a valid coil, one of "Massive", "Stranded" and "Foil winding" |

## Left out

- Complex sources: the phasor branch of `get_rhs` (build/lib/elmer_circuitbuilder.py:947-973) is not modelled; values are integers and only the real path is covered.
- Floating point: values are modelled as integers, whereas the source stores Python floats. Coil turns, resistance, thickness and sector are `real`.
- Missing values: a component whose value is `None` is not modelled on the numeric track.
- Pins outside 1..n: pins and the reference node are required to lie in 1..n. numpy would wrap a pin of 0 to the last row.
- numpy rendering: `np.block` float fillers are modelled as the tokens "0.0", "-1.0" and "-0.0". The `|S500` byte width and the byte decoding are not modelled.
- `np.block` is modelled cell by cell as a function, not as an array operation.
- Text agreement: TrackAgreement.TracksAgree holds only for circuits without self-loops whose other components have names starting with a letter or `_` and have positive values. Negative values flip the numeric sign but not the text one.
- ElmerPipeline.VoltageRowsCleared: assumes the pins are exactly the nodes 1..n, no self-loop, and plain names (no non-Elmer component name containing "v_component(" or starting with "component("). It assumes nothing about names otherwise, or about values.
- `get_zero_rows` is modelled (ZeroRowDetection.ZeroRows) but the text pipeline does not call it.
- ZeroRowDetection.ZeroRows, ZeroRowDetection.ZeroRowsExact, ZeroRowDetection.ZeroRowsStrOf, UnknownNames.VCompRowsAsWritten, Seqs.Positions, ZeroRowDetection.StripMinus, TableauText.Canon, TableauText.CanonZero: no contract of their own, because these functions sit inside many other proofs and any quantified `ensures` on them is re-assumed at every use; what they compute is stated by the lemma named in each one's row.
- Coils.ElmerComponent.IsClosed: follows the code, which keeps terminals an earlier `isOpen` set.
- Master bodies: modelled as an index or a name.
- Beyond the fields the pipeline reads, the base `Component` class and its subclasses (build/lib/elmer_circuitbuilder.py:20-166) are not modelled. The `Circuit` container (build/lib/elmer_circuitbuilder.py:343-366) is not modelled either.
- Not modelled, being I/O, printing, or calls into a linear solver:
  - `solve_system` (build/lib/elmer_circuitbuilder.py:1212-1245) and `solve_circuit` (build/lib/elmer_circuitbuilder.py:2095-2180);
  - the `.sif` text emission (build/lib/elmer_circuitbuilder.py:1440-1926, build/lib/elmer_circuitbuilder.py:1938-1973, build/lib/elmer_circuitbuilder.py:2052-2092);
  - file writing and orchestration (build/lib/elmer_circuitbuilder.py:1929-1935, build/lib/elmer_circuitbuilder.py:1988-2049, build/lib/elmer_circuitbuilder.py:2183-2351);
  - the exception classes and `say_hello`.
- Node order: the order of node-potential names versus incidence rows is not related. The two agree only when pins first appear in ascending order.

## Findings

| source | as written | input that shows it | evidently intended | confidence | as-written member | corrected member |
|---|---|---|---|---|---|---|
| build/lib/elmer_circuitbuilder.py:1355-1358 | Voltage rows are found by the substring test `"v_component(" in name` | A resistor named `component(1)`: its voltage unknown `"v_component(1)"` is reported as an Elmer voltage row | The voltage rows of the Elmer components, e + j for each Elmer component j | not executed | UnknownNames.VCompRowsMisclassify | UnknownNames.ComponentVoltageRows |
| build/lib/elmer_circuitbuilder.py:1384-1386 | The zero test runs on the sum M1 + M2 + b, so opposite cells cancel. This cannot happen on a system get_tableau_matrix builds, and the pipeline never calls get_zero_rows; only a direct caller is exposed | M1 = [[1]], M2 = [[0]], b = [-1]: row 0 is reported as zero | Rows that are zero in M1, in M2 and in b (ZeroRowDetection.ZeroRowsSpec proves this of the corrected detector) | not executed | ZeroRowDetection.SumCancels | ZeroRowDetection.ZeroRowsExact |
