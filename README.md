# epi_t1_nonlinear in Dafny

A model of `create_epi_t1_nonlinear_pipeline` in `epi_t1_nonlinear.py`. The
function builds a nipype workflow that registers a mean EPI image to a
FreeSurfer T1 image: first rigidly (bbregister, converted to ITK by c3d),
then nonlinearly with ANTs between the masked EPI and the masked, inverted
anatomical image. The model covers the two parts of the file that carry
logic of their own:

- **Inline helpers** (`selectors.dfy`, `inversion.dfy`).
  - `get_aparc_aseg` is a first-match substring search. It is modelled as a
    method with a loop, proved against a recursive specification.
  - `first_element` and `second_element` pick an element by index and
    raise `IndexError` on a short list.
  - `calc_inversion` computes the rescaling pair `(mul, add)`. Applied by
    `mulinv` and then `addinv`, the pair flips the anatomical intensity
    range onto the EPI range. It is modelled over `real`.
- **The wiring** (`nodes.dfy`, `graph.dfy`, `pipeline.dfy`).
  - The 21 nodes are listed in creation order, with their `name=`
    arguments and their declared slots.
  - A `Workflow` class holds the connection list. Its `connect` refuses an
    undeclared slot or an input that is already fed, and appends
    otherwise.
  - The builder adds the script's 40 active connections, one script
    section at a time. It is proved to leave the workflow holding exactly
    those connections. They feed no input twice and all run from an
    earlier-created node to a later one, so the graph has no cycle and
    creation order is a topological order. Every input a node declares,
    the input node's fields aside, is fed exactly once. The four outputs
    are each fed through the selector the script names.

`wrappers.dfy` holds `Option`, `Result` and the two Python errors the
helpers can raise.

`get_aparc_aseg` returns `None` when no name matches and raises nothing;
the model returns `None` too. The builder ignores its `name` argument and
always names the workflow `epi_t1_nonlinear` (epi_t1_nonlinear.py:14, 43);
so does the model.

## Model

| member | source | states |
|---|---|---|
| Selectors.ContainsIff | epi_t1_nonlinear.py:95 | Python's `'aparc+aseg' in name` scan succeeds exactly when the substring occurs at some position of the name (both directions) |
| Selectors.FirstMatchSpec | epi_t1_nonlinear.py:93-96 | the first-match search gives `None` exactly when no name contains the pattern, and otherwise a name at a matching position with no match before it |
| Selectors.GetAparcAseg | epi_t1_nonlinear.py:93-96 | `get_aparc_aseg` returns the first name containing `aparc+aseg`, and `None` (falling off the loop) exactly when no name contains it |
| Selectors.FirstElement | epi_t1_nonlinear.py:224-225 | `first_element` succeeds exactly on lists of length at least 1 and returns element 0; a shorter list gives IndexError |
| Selectors.SecondElement | epi_t1_nonlinear.py:221-222 | `second_element` succeeds exactly on lists of length at least 2 and returns element 1; a shorter list gives IndexError |
| Selectors.SelectorsRebuildList | epi_t1_nonlinear.py:221-225 | when `second_element` succeeds so does `first_element`, and the two picks followed by the rest rebuild the list |
| Inversion.Abs | epi_t1_nonlinear.py:172 | Python's `abs`: non-negative and equal to the argument or its negation |
| Inversion.CalcInversion | epi_t1_nonlinear.py:170-173 | succeeds exactly when both ranges have two entries and the anatomical range has non-zero width; otherwise IndexError for a short list, else ZeroDivisionError; on success `mul * (anat[1] - anat[0]) == epi[0] - epi[1]` |
| Inversion.ReversesOrder | epi_t1_nonlinear.py:170-173 | for ordered ranges the multiplier is non-positive, so multiply-then-add reverses intensity order |
| Inversion.InvertsRange | epi_t1_nonlinear.py:170-189 | with a non-negative anatomical maximum, `mulinv` then `addinv` send the anatomical maximum to the EPI minimum and the anatomical minimum to the EPI maximum |
| Inversion.MapsIntoRange | epi_t1_nonlinear.py:170-189 | under the same conditions every intensity in the anatomical range lands in the EPI range |
| Inversion.MaximumToMinimumIff | epi_t1_nonlinear.py:172 | for strictly ordered ranges (minimum below maximum) the anatomical maximum goes to the EPI minimum exactly when that maximum is non-negative: the `abs` in the offset is right only then |
| Inversion.ExampleRanges | epi_t1_nonlinear.py:170-173 | anatomical range (0, 10) and EPI range (0, 100) give `mul = -10`, `add = 100` |
| Nodes.RankIndexesCreationOrder | epi_t1_nonlinear.py:45-229 | every node sits in the creation order at the position its rank names |
| Nodes.RankOfPosition | epi_t1_nonlinear.py:45-229 | the node at position `i` of the creation order has rank `i`, so no node is created twice |
| Nodes.NamesUnique | epi_t1_nonlinear.py:43-229 | the `name=` arguments of the nodes are pairwise distinct |
| Graph.FeedsOf | epi_t1_nonlinear.py:55-234 | the connections feeding one input slot are exactly those in the list with that destination and slot, and there are none exactly when the slot is not fed |
| Graph.FedExactlyOnce | epi_t1_nonlinear.py:55-234 | in a list that feeds no input twice, the input fed by a connection is fed by that connection alone |
| Graph.AppendAdmissible | epi_t1_nonlinear.py:55-234 | appending an admissible batch keeps the list well formed: every slot declared, no input fed twice |
| Graph.ConnectInSteps | epi_t1_nonlinear.py:110-111 | `connect(a)` followed by `connect(b)` is accepted exactly when `connect(a + b)` is (both directions), so a run of successful calls can be issued as one list |
| Graph.Workflow.constructor | epi_t1_nonlinear.py:43 | `Workflow(name=...)` has the given name and no connections |
| Graph.Workflow.ConnectList | epi_t1_nonlinear.py:110-111 | `connect([...])` is accepted exactly when every slot is declared, no listed input is already fed and none is fed twice; it then appends the list, otherwise the workflow is unchanged; the workflow stays well formed |
| Graph.Workflow.Connect | epi_t1_nonlinear.py:55 | `connect(src, out, dst, inp)` is accepted exactly when both slots are declared and the input is not yet fed; it then appends that one connection, otherwise the workflow is unchanged |
| Graph.PathRaisesRank | epi_t1_nonlinear.py:46-234 | along connections that follow creation order, every walk of one step or more ends at a node created later than its start |
| Graph.NoCycle | epi_t1_nonlinear.py:46-234 | connections that follow creation order form no cycle |
| Graph.CreationOrderIsTopological | epi_t1_nonlinear.py:46-234 | creation order lists every node once and puts every connection's source before its destination |
| Pipeline.ExtendSection | epi_t1_nonlinear.py:55-234 | a section whose connections are declared, feed no input twice and feed only nodes with no input connected yet is accepted by `connect`; afterwards only nodes up to that section have inputs fed |
| Pipeline.WireTMean | epi_t1_nonlinear.py:50-55 | adds `realigned_epi -> tmean.in_file`; accepted; the workflow holds its earlier connections followed by it, stays well formed and follows creation order |
| Pipeline.WireFreesurferImport | epi_t1_nonlinear.py:58-63 | adds the subject directory and id connections into `freesurfer_import`; accepted; earlier connections followed by these |
| Pipeline.WireMriConvert | epi_t1_nonlinear.py:65-69 | adds `brain -> mriconvert.in_file`; accepted; earlier connections followed by it |
| Pipeline.WireBbRegister | epi_t1_nonlinear.py:71-79 | adds the three inputs of `bbregister`; accepted; earlier connections followed by these |
| Pipeline.WireItk | epi_t1_nonlinear.py:81-88 | adds the three inputs of `itk`; accepted; earlier connections followed by these |
| Pipeline.WireAparcAsegMask | epi_t1_nonlinear.py:91-111 | adds the one-call list `aparc_aseg` through `get_aparc_aseg` into `aparc_aseg_mask`, then into `fillholes`; accepted; earlier connections followed by these |
| Pipeline.WireFov | epi_t1_nonlinear.py:114-128 | adds the inputs of `fov` and `fov_trans` (the transform through `filename_to_list`, reference image from `fillholes`; the commented-out alternative at line 128 is not added); accepted |
| Pipeline.WireIntersect | epi_t1_nonlinear.py:130-136 | adds the two inputs of `intersect` (the commented-out line 135 is not added); accepted |
| Pipeline.WireMaskTrans | epi_t1_nonlinear.py:138-146 | adds the three inputs of `mask_trans`; accepted; earlier connections followed by these |
| Pipeline.WireMaskEpi | epi_t1_nonlinear.py:148-152 | adds the two inputs of `maskepi`; accepted; earlier connections followed by these |
| Pipeline.WireMaskAnat | epi_t1_nonlinear.py:154-159 | adds the two inputs of `maskanat`; accepted; earlier connections followed by these |
| Pipeline.WireMinMax | epi_t1_nonlinear.py:161-168 | adds the inputs of `anat_min_max` and `epi_min_max`; accepted; earlier connections followed by these |
| Pipeline.WireCalcInv | epi_t1_nonlinear.py:170-181 | adds the two range inputs of `calcinv`; accepted; earlier connections followed by these |
| Pipeline.WireInversion | epi_t1_nonlinear.py:183-189 | adds the inputs of `mulinv` and `addinv` (`mul` into the first, `add` into the second); accepted |
| Pipeline.WireAntsReg | epi_t1_nonlinear.py:192-217 | adds the three inputs of `antsreg`; accepted; earlier connections followed by these |
| Pipeline.WireOutputNode | epi_t1_nonlinear.py:219-234 | adds the four output connections; accepted; each of `lin_epi2anat`, `lin_anat2epi`, `nonlin_anat2epi`, `nonlin_epi2anat` is then fed by exactly one connection, from `itk_transform`, `forward_transforms[0]`, `forward_transforms[1]` and `reverse_transforms[1]` respectively |
| Pipeline.ScriptWellFormed | epi_t1_nonlinear.py:55-234 | the script's connections, taken as a list, are all declared, feed no input twice and all run forward in creation order |
| Pipeline.ScriptFeedsEveryInput | epi_t1_nonlinear.py:46-234 | every input slot a node declares (the input node's fields aside, which the caller binds) is fed by exactly one of the script's connections: none is left unconnected, among them the two `input_names` of `calcinv` and the four fields of `outputnode` |
| Pipeline.CreateEpiT1NonlinearPipeline | epi_t1_nonlinear.py:14-236 | returns a fresh workflow named `epi_t1_nonlinear` holding exactly the script's 40 active connections in order, well formed, following creation order, with the four outputs each fed once as the script feeds them |

## Left out

- Executing the workflow (`Workflow.run`, scheduling, caching, working directories): this is nipype's, and nipype is not part of this model.
- The external tools (FSL, FreeSurfer, ANTs, c3d) and their parameters: these are opaque foreign calls. A tool node is modelled only by the slots the script connects on it, not by the tool's full interface.
- `filename_to_list` is nipype's and is not part of this model. It appears only as an opaque selector on two connections.
- Values bound to the input node at run time (subject id, subjects directory, realigned EPI): these come from the caller and are not modelled.
- Floating-point rounding in `calc_inversion`: intensities are reals, and no result is claimed to be bit-exact.
- Command-line parsing and the `__main__` block (lines 240-255): I/O plumbing.
- File paths, image formats and file-system layout.
- Pipeline.WireTMean to Pipeline.WireOutputNode: consecutive `connect` calls of one script section are issued as one `ConnectList` call. `Graph.ConnectInSteps` proves that the calls, one after another, are accepted exactly when the single call is, and then leave the same list. What is not captured is the state between two calls of the same section.
- Graph.Workflow.Connect and Graph.Workflow.ConnectList: a rejected call returns `false` and leaves the workflow unchanged, where nipype raises an exception.
