/** The nodes that `create_epi_t1_nonlinear_pipeline` creates, in the order
    the script creates them, with the input and output slots each declares.
    For the two IdentityInterface nodes and the Function node the slots are
    the ones the script lists; for the external tool nodes they are the
    slots of the tool interface that the script connects. */
module Nodes {

  /** The node objects, declared in creation order. */
  datatype NodeId =
    | InputNode | TMean | FreesurferImport | MriConvert | BbRegister | Itk
    | AparcAsegMask | FillHoles | Fov | FovTrans | Intersect | MaskTrans
    | MaskEpi | MaskAnat | AnatMinMax | EpiMinMax | CalcInv | MulInv | AddInv
    | AntsReg | OutputNode

  /** The input and output slot names the script refers to. */
  datatype Slot =
    | FsSubjectId | FsSubjectsDir | RealignedEpi
    | InFile | OutFile | SubjectsDir | SubjectId | Brain | AparcAseg
    | SourceFile | OutFslFile | ReferenceFile | TransformFile | ItkTransform
    | BinaryFile | Transforms | InputImage | ReferenceImage | OutputImage
    | OperandFile | MaskFile | OutStat | AnatMinMaxArg | EpiMinMaxArg
    | Mul | Add | OperandValue | InitialMovingTransform | FixedImage
    | MovingImage | ForwardTransforms | ReverseTransforms
    | LinEpi2Anat | LinAnat2Epi | NonlinEpi2Anat | NonlinAnat2Epi

  /** The `name=` argument each node is created with. */
  function NodeName(n: NodeId): string {
    match n
    case InputNode => "inputnode"
    case TMean => "tmean"
    case FreesurferImport => "freesurfer_import"
    case MriConvert => "mriconvert"
    case BbRegister => "bbregister"
    case Itk => "itk"
    case AparcAsegMask => "aparc_aseg_mask"
    case FillHoles => "fillholes"
    case Fov => "fov"
    case FovTrans => "fov_trans"
    case Intersect => "intersect"
    case MaskTrans => "mask_trans"
    case MaskEpi => "maskepi"
    case MaskAnat => "maskanat"
    case AnatMinMax => "anat_min_max"
    case EpiMinMax => "epi_min_max"
    case CalcInv => "calcinv"
    case MulInv => "mulinv"
    case AddInv => "addinv"
    case AntsReg => "antsreg"
    case OutputNode => "outputnode"
  }

  /** The slot names as the script spells them. */
  function SlotName(s: Slot): string {
    match s
    case FsSubjectId => "fs_subject_id"
    case FsSubjectsDir => "fs_subjects_dir"
    case RealignedEpi => "realigned_epi"
    case InFile => "in_file"
    case OutFile => "out_file"
    case SubjectsDir => "subjects_dir"
    case SubjectId => "subject_id"
    case Brain => "brain"
    case AparcAseg => "aparc_aseg"
    case SourceFile => "source_file"
    case OutFslFile => "out_fsl_file"
    case ReferenceFile => "reference_file"
    case TransformFile => "transform_file"
    case ItkTransform => "itk_transform"
    case BinaryFile => "binary_file"
    case Transforms => "transforms"
    case InputImage => "input_image"
    case ReferenceImage => "reference_image"
    case OutputImage => "output_image"
    case OperandFile => "operand_file"
    case MaskFile => "mask_file"
    case OutStat => "out_stat"
    case AnatMinMaxArg => "anat_min_max"
    case EpiMinMaxArg => "epi_min_max"
    case Mul => "mul"
    case Add => "add"
    case OperandValue => "operand_value"
    case InitialMovingTransform => "initial_moving_transform"
    case FixedImage => "fixed_image"
    case MovingImage => "moving_image"
    case ForwardTransforms => "forward_transforms"
    case ReverseTransforms => "reverse_transforms"
    case LinEpi2Anat => "lin_epi2anat"
    case LinAnat2Epi => "lin_anat2epi"
    case NonlinEpi2Anat => "nonlin_epi2anat"
    case NonlinAnat2Epi => "nonlin_anat2epi"
  }

  /** The fields of the two IdentityInterface nodes. Such a node declares
      each of its fields as both an input and an output. */
  predicate InputField(s: Slot) {
    s == FsSubjectId || s == FsSubjectsDir || s == RealignedEpi
  }

  predicate OutputField(s: Slot) {
    s == LinEpi2Anat || s == LinAnat2Epi || s == NonlinEpi2Anat || s == NonlinAnat2Epi
  }

  /** Node `n` declares input slot `s`. */
  predicate HasInput(n: NodeId, s: Slot) {
    match n
    case InputNode => InputField(s)
    case TMean => s == InFile
    case FreesurferImport => s == SubjectsDir || s == SubjectId
    case MriConvert => s == InFile
    case BbRegister => s == SubjectsDir || s == SubjectId || s == SourceFile
    case Itk => s == SourceFile || s == ReferenceFile || s == TransformFile
    case AparcAsegMask => s == InFile
    case FillHoles => s == InFile
    case Fov => s == InFile
    case FovTrans => s == Transforms || s == InputImage || s == ReferenceImage
    case Intersect => s == InFile || s == OperandFile
    case MaskTrans => s == Transforms || s == InputImage || s == ReferenceImage
    case MaskEpi => s == MaskFile || s == InFile
    case MaskAnat => s == MaskFile || s == InFile
    case AnatMinMax => s == InFile
    case EpiMinMax => s == InFile
    case CalcInv => s == AnatMinMaxArg || s == EpiMinMaxArg
    case MulInv => s == InFile || s == OperandValue
    case AddInv => s == InFile || s == OperandValue
    case AntsReg => s == InitialMovingTransform || s == FixedImage || s == MovingImage
    case OutputNode => OutputField(s)
  }

  /** Node `n` declares output slot `s`. */
  predicate HasOutput(n: NodeId, s: Slot) {
    match n
    case InputNode => InputField(s)
    case TMean => s == OutFile
    case FreesurferImport => s == Brain || s == AparcAseg
    case MriConvert => s == OutFile
    case BbRegister => s == OutFslFile
    case Itk => s == ItkTransform
    case AparcAsegMask => s == BinaryFile
    case FillHoles => s == OutFile
    case Fov => s == BinaryFile
    case FovTrans => s == OutputImage
    case Intersect => s == OutFile
    case MaskTrans => s == OutputImage
    case MaskEpi => s == OutFile
    case MaskAnat => s == OutFile
    case AnatMinMax => s == OutStat
    case EpiMinMax => s == OutStat
    case CalcInv => s == Mul || s == Add
    case MulInv => s == OutFile
    case AddInv => s == OutFile
    case AntsReg => s == ForwardTransforms || s == ReverseTransforms
    case OutputNode => OutputField(s)
  }

  /** The order in which the script creates the node objects. */
  const CreationOrder: seq<NodeId> :=
    [ InputNode, TMean, FreesurferImport, MriConvert, BbRegister, Itk
    , AparcAsegMask, FillHoles, Fov, FovTrans, Intersect, MaskTrans
    , MaskEpi, MaskAnat, AnatMinMax, EpiMinMax, CalcInv, MulInv, AddInv
    , AntsReg, OutputNode ]

  /** A node's position in `CreationOrder` (see `RankIndexesCreationOrder`). */
  function Rank(n: NodeId): nat {
    match n
    case InputNode => 0
    case TMean => 1
    case FreesurferImport => 2
    case MriConvert => 3
    case BbRegister => 4
    case Itk => 5
    case AparcAsegMask => 6
    case FillHoles => 7
    case Fov => 8
    case FovTrans => 9
    case Intersect => 10
    case MaskTrans => 11
    case MaskEpi => 12
    case MaskAnat => 13
    case AnatMinMax => 14
    case EpiMinMax => 15
    case CalcInv => 16
    case MulInv => 17
    case AddInv => 18
    case AntsReg => 19
    case OutputNode => 20
  }

  /** Every node sits in `CreationOrder` at the position its rank names. */
  lemma RankIndexesCreationOrder(n: NodeId)
    ensures Rank(n) < |CreationOrder| && CreationOrder[Rank(n)] == n
  {
  }

  /** The node at position `i` of `CreationOrder` has rank `i`, so no node is
      created twice. */
  lemma RankOfPosition(i: int)
    requires 0 <= i < |CreationOrder|
    ensures Rank(CreationOrder[i]) == i
  {
  }

  /** Every node is created once: node names are unique, as a workflow
      requires of the nodes it holds. */
  lemma NamesUnique(a: NodeId, b: NodeId)
    requires NodeName(a) == NodeName(b)
    ensures a == b
  {
  }
}
