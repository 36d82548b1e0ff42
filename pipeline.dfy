/** `create_epi_t1_nonlinear_pipeline`: the connections the script makes,
    one section of the script at a time. Each section's connections are a
    constant listing them in the script's order; the section method adds
    them, proves that the workflow accepts them, and leaves it holding the
    connections it held before followed by the section's. */
module Pipeline {
  import opened Wrappers
  import opened Nodes
  import opened Graph

  /** The `name=` the script gives the workflow. */
  const WorkflowName: string := "epi_t1_nonlinear"

  /** Every connection runs forward in creation order and feeds a node whose
      rank is below `bound`: the nodes from rank `bound` on have no input
      connected yet. */
  predicate ConnectedBelow(edges: seq<Edge>, bound: nat) {
    && FollowsCreationOrder(edges)
    && forall e | e in edges :: Rank(e.dst) < bound
  }

  /** Both slots of `e` are declared, `e` runs forward in creation order,
      and it feeds a node whose rank lies in `lo..hi`. */
  predicate InSection(e: Edge, lo: nat, hi: nat) {
    Declared(e) && Rank(e.src) < Rank(e.dst) && lo <= Rank(e.dst) < hi
  }

  /** A section wiring nodes that have no input connected yet is accepted
      as a whole by `connect`, and afterwards only nodes below `hi` have
      inputs connected. */
  lemma ExtendSection(edges: seq<Edge>, batch: seq<Edge>, lo: nat, hi: nat)
    requires ConnectedBelow(edges, lo) && lo <= hi
    requires FedOnce(batch) && forall e | e in batch :: InSection(e, lo, hi)
    ensures Admissible(edges, batch) && ConnectedBelow(edges + batch, hi)
  {
    forall e | e in batch ensures !Fed(edges, e.dst, e.inp) {
      forall d | d in edges ensures d.dst != e.dst {
      }
    }
    forall e | e in edges + batch ensures Rank(e.src) < Rank(e.dst) < hi {
      if e !in edges {
        assert e in batch;
      }
    }
  }

  /** Lines 50-55: the temporal mean of the realigned time series. */
  const TMeanConnections: seq<Edge> :=
    [Edge(InputNode, RealignedEpi, None, TMean, InFile)]

  /** The section feeds no input twice. */
  lemma TMeanFedOnce()
    ensures FedOnce(TMeanConnections)
  {
  }

  /** The section's slots are declared and its connections run forward
      into the nodes it wires. */
  lemma TMeanInSection()
    ensures forall e | e in TMeanConnections :: InSection(e, Rank(TMean), Rank(FreesurferImport))
  {
  }

  /** The section's `connect` calls, in the script's order. They all
      succeed, so they are issued as one list (`ConnectInSteps`). */
  method WireTMean(nonreg: Workflow)
    requires nonreg.Valid() && ConnectedBelow(nonreg.edges, Rank(TMean))
    modifies nonreg
    ensures nonreg.Valid() && ConnectedBelow(nonreg.edges, Rank(FreesurferImport))
    ensures nonreg.edges == old(nonreg.edges) + TMeanConnections
  {
    TMeanFedOnce();
    TMeanInSection();
    ExtendSection(nonreg.edges, TMeanConnections, Rank(TMean), Rank(FreesurferImport));
    var ok := nonreg.ConnectList(TMeanConnections);
    assert ok;
  }

  /** Every input the section's nodes declare is fed by the section. */
  lemma TMeanFeedsDeclared()
    ensures forall s | HasInput(TMean, s) :: Fed(TMeanConnections, TMean, s)
  {
  }

  /** The section's connections are among the script's. */
  lemma TMeanInScript()
    ensures forall e | e in TMeanConnections :: e in ScriptConnections
  {
  }

  /** Lines 58-63: the FreeSurfer subject files. */
  const FreesurferImportConnections: seq<Edge> :=
    [Edge(InputNode, FsSubjectsDir, None, FreesurferImport, SubjectsDir),
     Edge(InputNode, FsSubjectId, None, FreesurferImport, SubjectId)]

  /** The section feeds no input twice. */
  lemma FreesurferImportFedOnce()
    ensures FedOnce(FreesurferImportConnections)
  {
  }

  /** The section's slots are declared and its connections run forward
      into the nodes it wires. */
  lemma FreesurferImportInSection()
    ensures forall e | e in FreesurferImportConnections :: InSection(e, Rank(FreesurferImport), Rank(MriConvert))
  {
  }

  /** The section's `connect` calls, in the script's order. They all
      succeed, so they are issued as one list (`ConnectInSteps`). */
  method WireFreesurferImport(nonreg: Workflow)
    requires nonreg.Valid() && ConnectedBelow(nonreg.edges, Rank(FreesurferImport))
    modifies nonreg
    ensures nonreg.Valid() && ConnectedBelow(nonreg.edges, Rank(MriConvert))
    ensures nonreg.edges == old(nonreg.edges) + FreesurferImportConnections
  {
    FreesurferImportFedOnce();
    FreesurferImportInSection();
    ExtendSection(nonreg.edges, FreesurferImportConnections, Rank(FreesurferImport), Rank(MriConvert));
    var ok := nonreg.ConnectList(FreesurferImportConnections);
    assert ok;
  }

  /** Every input the section's nodes declare is fed by the section. */
  lemma FreesurferImportFeedsDeclared()
    ensures forall s | HasInput(FreesurferImport, s) :: Fed(FreesurferImportConnections, FreesurferImport, s)
  {
  }

  /** The section's connections are among the script's. */
  lemma FreesurferImportInScript()
    ensures forall e | e in FreesurferImportConnections :: e in ScriptConnections
  {
  }

  /** Lines 65-69: conversion of `brain.mgz` to NIfTI. */
  const MriConvertConnections: seq<Edge> :=
    [Edge(FreesurferImport, Brain, None, MriConvert, InFile)]

  /** The section feeds no input twice. */
  lemma MriConvertFedOnce()
    ensures FedOnce(MriConvertConnections)
  {
  }

  /** The section's slots are declared and its connections run forward
      into the nodes it wires. */
  lemma MriConvertInSection()
    ensures forall e | e in MriConvertConnections :: InSection(e, Rank(MriConvert), Rank(BbRegister))
  {
  }

  /** The section's `connect` calls, in the script's order. They all
      succeed, so they are issued as one list (`ConnectInSteps`). */
  method WireMriConvert(nonreg: Workflow)
    requires nonreg.Valid() && ConnectedBelow(nonreg.edges, Rank(MriConvert))
    modifies nonreg
    ensures nonreg.Valid() && ConnectedBelow(nonreg.edges, Rank(BbRegister))
    ensures nonreg.edges == old(nonreg.edges) + MriConvertConnections
  {
    MriConvertFedOnce();
    MriConvertInSection();
    ExtendSection(nonreg.edges, MriConvertConnections, Rank(MriConvert), Rank(BbRegister));
    var ok := nonreg.ConnectList(MriConvertConnections);
    assert ok;
  }

  /** Every input the section's nodes declare is fed by the section. */
  lemma MriConvertFeedsDeclared()
    ensures forall s | HasInput(MriConvert, s) :: Fed(MriConvertConnections, MriConvert, s)
  {
  }

  /** The section's connections are among the script's. */
  lemma MriConvertInScript()
    ensures forall e | e in MriConvertConnections :: e in ScriptConnections
  {
  }

  /** Lines 71-79: rigid registration of the mean EPI to the T1 image. */
  const BbRegisterConnections: seq<Edge> :=
    [Edge(InputNode, FsSubjectsDir, None, BbRegister, SubjectsDir),
     Edge(InputNode, FsSubjectId, None, BbRegister, SubjectId),
     Edge(TMean, OutFile, None, BbRegister, SourceFile)]

  /** The section feeds no input twice. */
  lemma BbRegisterFedOnce()
    ensures FedOnce(BbRegisterConnections)
  {
  }

  /** The section's slots are declared and its connections run forward
      into the nodes it wires. */
  lemma BbRegisterInSection()
    ensures forall e | e in BbRegisterConnections :: InSection(e, Rank(BbRegister), Rank(Itk))
  {
  }

  /** The section's `connect` calls, in the script's order. They all
      succeed, so they are issued as one list (`ConnectInSteps`). */
  method WireBbRegister(nonreg: Workflow)
    requires nonreg.Valid() && ConnectedBelow(nonreg.edges, Rank(BbRegister))
    modifies nonreg
    ensures nonreg.Valid() && ConnectedBelow(nonreg.edges, Rank(Itk))
    ensures nonreg.edges == old(nonreg.edges) + BbRegisterConnections
  {
    BbRegisterFedOnce();
    BbRegisterInSection();
    ExtendSection(nonreg.edges, BbRegisterConnections, Rank(BbRegister), Rank(Itk));
    var ok := nonreg.ConnectList(BbRegisterConnections);
    assert ok;
  }

  /** Every input the section's nodes declare is fed by the section. */
  lemma BbRegisterFeedsDeclared()
    ensures forall s | HasInput(BbRegister, s) :: Fed(BbRegisterConnections, BbRegister, s)
  {
  }

  /** The section's connections are among the script's. */
  lemma BbRegisterInScript()
    ensures forall e | e in BbRegisterConnections :: e in ScriptConnections
  {
  }

  /** Lines 81-88: conversion of the rigid transform to ITK format. */
  const ItkConnections: seq<Edge> :=
    [Edge(TMean, OutFile, None, Itk, SourceFile),
     Edge(MriConvert, OutFile, None, Itk, ReferenceFile),
     Edge(BbRegister, OutFslFile, None, Itk, TransformFile)]

  /** The section feeds no input twice. */
  lemma ItkFedOnce()
    ensures FedOnce(ItkConnections)
  {
  }

  /** The section's slots are declared and its connections run forward
      into the nodes it wires. */
  lemma ItkInSection()
    ensures forall e | e in ItkConnections :: InSection(e, Rank(Itk), Rank(AparcAsegMask))
  {
  }

  /** The section's `connect` calls, in the script's order. They all
      succeed, so they are issued as one list (`ConnectInSteps`). */
  method WireItk(nonreg: Workflow)
    requires nonreg.Valid() && ConnectedBelow(nonreg.edges, Rank(Itk))
    modifies nonreg
    ensures nonreg.Valid() && ConnectedBelow(nonreg.edges, Rank(AparcAsegMask))
    ensures nonreg.edges == old(nonreg.edges) + ItkConnections
  {
    ItkFedOnce();
    ItkInSection();
    ExtendSection(nonreg.edges, ItkConnections, Rank(Itk), Rank(AparcAsegMask));
    var ok := nonreg.ConnectList(ItkConnections);
    assert ok;
  }

  /** Every input the section's nodes declare is fed by the section. */
  lemma ItkFeedsDeclared()
    ensures forall s | HasInput(Itk, s) :: Fed(ItkConnections, Itk, s)
  {
  }

  /** The section's connections are among the script's. */
  lemma ItkInScript()
    ensures forall e | e in ItkConnections :: e in ScriptConnections
  {
  }

  /** Lines 91-111: the brain mask built from `aparc+aseg`, with its holes filled, wired in one `connect` call. */
  const AparcAsegMaskConnections: seq<Edge> :=
    [Edge(FreesurferImport, AparcAseg, Some(GetAparcAseg), AparcAsegMask, InFile),
     Edge(AparcAsegMask, BinaryFile, None, FillHoles, InFile)]

  /** The section feeds no input twice. */
  lemma AparcAsegMaskFedOnce()
    ensures FedOnce(AparcAsegMaskConnections)
  {
  }

  /** The section's slots are declared and its connections run forward
      into the nodes it wires. */
  lemma AparcAsegMaskInSection()
    ensures forall e | e in AparcAsegMaskConnections :: InSection(e, Rank(AparcAsegMask), Rank(Fov))
  {
  }

  /** The section's `connect` calls, in the script's order. They all
      succeed, so they are issued as one list (`ConnectInSteps`). */
  method WireAparcAsegMask(nonreg: Workflow)
    requires nonreg.Valid() && ConnectedBelow(nonreg.edges, Rank(AparcAsegMask))
    modifies nonreg
    ensures nonreg.Valid() && ConnectedBelow(nonreg.edges, Rank(Fov))
    ensures nonreg.edges == old(nonreg.edges) + AparcAsegMaskConnections
  {
    AparcAsegMaskFedOnce();
    AparcAsegMaskInSection();
    ExtendSection(nonreg.edges, AparcAsegMaskConnections, Rank(AparcAsegMask), Rank(Fov));
    var ok := nonreg.ConnectList(AparcAsegMaskConnections);
    assert ok;
  }

  /** Every input the section's nodes declare is fed by the section. */
  lemma AparcAsegMaskFeedsDeclared()
    ensures forall s | HasInput(AparcAsegMask, s) :: Fed(AparcAsegMaskConnections, AparcAsegMask, s)
    ensures forall s | HasInput(FillHoles, s) :: Fed(AparcAsegMaskConnections, FillHoles, s)
  {
  }

  /** The section's connections are among the script's. */
  lemma AparcAsegMaskInScript()
    ensures forall e | e in AparcAsegMaskConnections :: e in ScriptConnections
  {
  }

  /** Lines 114-128: the field-of-view mask, moved into anatomical space. */
  const FovConnections: seq<Edge> :=
    [Edge(TMean, OutFile, None, Fov, InFile),
     Edge(Itk, ItkTransform, Some(FilenameToList), FovTrans, Transforms),
     Edge(Fov, BinaryFile, None, FovTrans, InputImage),
     Edge(FillHoles, OutFile, None, FovTrans, ReferenceImage)]

  /** The section feeds no input twice. */
  lemma FovFedOnce()
    ensures FedOnce(FovConnections)
  {
  }

  /** The section's slots are declared and its connections run forward
      into the nodes it wires. */
  lemma FovInSection()
    ensures forall e | e in FovConnections :: InSection(e, Rank(Fov), Rank(Intersect))
  {
  }

  /** The section's `connect` calls, in the script's order. They all
      succeed, so they are issued as one list (`ConnectInSteps`). */
  method WireFov(nonreg: Workflow)
    requires nonreg.Valid() && ConnectedBelow(nonreg.edges, Rank(Fov))
    modifies nonreg
    ensures nonreg.Valid() && ConnectedBelow(nonreg.edges, Rank(Intersect))
    ensures nonreg.edges == old(nonreg.edges) + FovConnections
  {
    FovFedOnce();
    FovInSection();
    ExtendSection(nonreg.edges, FovConnections, Rank(Fov), Rank(Intersect));
    var ok := nonreg.ConnectList(FovConnections);
    assert ok;
  }

  /** Every input the section's nodes declare is fed by the section. */
  lemma FovFeedsDeclared()
    ensures forall s | HasInput(Fov, s) :: Fed(FovConnections, Fov, s)
    ensures forall s | HasInput(FovTrans, s) :: Fed(FovConnections, FovTrans, s)
  {
  }

  /** The section's connections are among the script's. */
  lemma FovInScript()
    ensures forall e | e in FovConnections :: e in ScriptConnections
  {
  }

  /** Lines 130-136: the intersection of both masks. */
  const IntersectConnections: seq<Edge> :=
    [Edge(FillHoles, OutFile, None, Intersect, InFile),
     Edge(FovTrans, OutputImage, None, Intersect, OperandFile)]

  /** The section feeds no input twice. */
  lemma IntersectFedOnce()
    ensures FedOnce(IntersectConnections)
  {
  }

  /** The section's slots are declared and its connections run forward
      into the nodes it wires. */
  lemma IntersectInSection()
    ensures forall e | e in IntersectConnections :: InSection(e, Rank(Intersect), Rank(MaskTrans))
  {
  }

  /** The section's `connect` calls, in the script's order. They all
      succeed, so they are issued as one list (`ConnectInSteps`). */
  method WireIntersect(nonreg: Workflow)
    requires nonreg.Valid() && ConnectedBelow(nonreg.edges, Rank(Intersect))
    modifies nonreg
    ensures nonreg.Valid() && ConnectedBelow(nonreg.edges, Rank(MaskTrans))
    ensures nonreg.edges == old(nonreg.edges) + IntersectConnections
  {
    IntersectFedOnce();
    IntersectInSection();
    ExtendSection(nonreg.edges, IntersectConnections, Rank(Intersect), Rank(MaskTrans));
    var ok := nonreg.ConnectList(IntersectConnections);
    assert ok;
  }

  /** Every input the section's nodes declare is fed by the section. */
  lemma IntersectFeedsDeclared()
    ensures forall s | HasInput(Intersect, s) :: Fed(IntersectConnections, Intersect, s)
  {
  }

  /** The section's connections are among the script's. */
  lemma IntersectInScript()
    ensures forall e | e in IntersectConnections :: e in ScriptConnections
  {
  }

  /** Lines 138-146: the intersected mask, moved back into EPI space. */
  const MaskTransConnections: seq<Edge> :=
    [Edge(Itk, ItkTransform, Some(FilenameToList), MaskTrans, Transforms),
     Edge(Intersect, OutFile, None, MaskTrans, InputImage),
     Edge(TMean, OutFile, None, MaskTrans, ReferenceImage)]

  /** The section feeds no input twice. */
  lemma MaskTransFedOnce()
    ensures FedOnce(MaskTransConnections)
  {
  }

  /** The section's slots are declared and its connections run forward
      into the nodes it wires. */
  lemma MaskTransInSection()
    ensures forall e | e in MaskTransConnections :: InSection(e, Rank(MaskTrans), Rank(MaskEpi))
  {
  }

  /** The section's `connect` calls, in the script's order. They all
      succeed, so they are issued as one list (`ConnectInSteps`). */
  method WireMaskTrans(nonreg: Workflow)
    requires nonreg.Valid() && ConnectedBelow(nonreg.edges, Rank(MaskTrans))
    modifies nonreg
    ensures nonreg.Valid() && ConnectedBelow(nonreg.edges, Rank(MaskEpi))
    ensures nonreg.edges == old(nonreg.edges) + MaskTransConnections
  {
    MaskTransFedOnce();
    MaskTransInSection();
    ExtendSection(nonreg.edges, MaskTransConnections, Rank(MaskTrans), Rank(MaskEpi));
    var ok := nonreg.ConnectList(MaskTransConnections);
    assert ok;
  }

  /** Every input the section's nodes declare is fed by the section. */
  lemma MaskTransFeedsDeclared()
    ensures forall s | HasInput(MaskTrans, s) :: Fed(MaskTransConnections, MaskTrans, s)
  {
  }

  /** The section's connections are among the script's. */
  lemma MaskTransInScript()
    ensures forall e | e in MaskTransConnections :: e in ScriptConnections
  {
  }

  /** Lines 148-152: masking of the mean EPI. */
  const MaskEpiConnections: seq<Edge> :=
    [Edge(MaskTrans, OutputImage, None, MaskEpi, MaskFile),
     Edge(TMean, OutFile, None, MaskEpi, InFile)]

  /** The section feeds no input twice. */
  lemma MaskEpiFedOnce()
    ensures FedOnce(MaskEpiConnections)
  {
  }

  /** The section's slots are declared and its connections run forward
      into the nodes it wires. */
  lemma MaskEpiInSection()
    ensures forall e | e in MaskEpiConnections :: InSection(e, Rank(MaskEpi), Rank(MaskAnat))
  {
  }

  /** The section's `connect` calls, in the script's order. They all
      succeed, so they are issued as one list (`ConnectInSteps`). */
  method WireMaskEpi(nonreg: Workflow)
    requires nonreg.Valid() && ConnectedBelow(nonreg.edges, Rank(MaskEpi))
    modifies nonreg
    ensures nonreg.Valid() && ConnectedBelow(nonreg.edges, Rank(MaskAnat))
    ensures nonreg.edges == old(nonreg.edges) + MaskEpiConnections
  {
    MaskEpiFedOnce();
    MaskEpiInSection();
    ExtendSection(nonreg.edges, MaskEpiConnections, Rank(MaskEpi), Rank(MaskAnat));
    var ok := nonreg.ConnectList(MaskEpiConnections);
    assert ok;
  }

  /** Every input the section's nodes declare is fed by the section. */
  lemma MaskEpiFeedsDeclared()
    ensures forall s | HasInput(MaskEpi, s) :: Fed(MaskEpiConnections, MaskEpi, s)
  {
  }

  /** The section's connections are among the script's. */
  lemma MaskEpiInScript()
    ensures forall e | e in MaskEpiConnections :: e in ScriptConnections
  {
  }

  /** Lines 154-159: masking of the anatomical image. */
  const MaskAnatConnections: seq<Edge> :=
    [Edge(Intersect, OutFile, None, MaskAnat, MaskFile),
     Edge(MriConvert, OutFile, None, MaskAnat, InFile)]

  /** The section feeds no input twice. */
  lemma MaskAnatFedOnce()
    ensures FedOnce(MaskAnatConnections)
  {
  }

  /** The section's slots are declared and its connections run forward
      into the nodes it wires. */
  lemma MaskAnatInSection()
    ensures forall e | e in MaskAnatConnections :: InSection(e, Rank(MaskAnat), Rank(AnatMinMax))
  {
  }

  /** The section's `connect` calls, in the script's order. They all
      succeed, so they are issued as one list (`ConnectInSteps`). */
  method WireMaskAnat(nonreg: Workflow)
    requires nonreg.Valid() && ConnectedBelow(nonreg.edges, Rank(MaskAnat))
    modifies nonreg
    ensures nonreg.Valid() && ConnectedBelow(nonreg.edges, Rank(AnatMinMax))
    ensures nonreg.edges == old(nonreg.edges) + MaskAnatConnections
  {
    MaskAnatFedOnce();
    MaskAnatInSection();
    ExtendSection(nonreg.edges, MaskAnatConnections, Rank(MaskAnat), Rank(AnatMinMax));
    var ok := nonreg.ConnectList(MaskAnatConnections);
    assert ok;
  }

  /** Every input the section's nodes declare is fed by the section. */
  lemma MaskAnatFeedsDeclared()
    ensures forall s | HasInput(MaskAnat, s) :: Fed(MaskAnatConnections, MaskAnat, s)
  {
  }

  /** The section's connections are among the script's. */
  lemma MaskAnatInScript()
    ensures forall e | e in MaskAnatConnections :: e in ScriptConnections
  {
  }

  /** Lines 161-168: the intensity ranges of both masked images. */
  const MinMaxConnections: seq<Edge> :=
    [Edge(MaskAnat, OutFile, None, AnatMinMax, InFile),
     Edge(TMean, OutFile, None, EpiMinMax, InFile)]

  /** The section feeds no input twice. */
  lemma MinMaxFedOnce()
    ensures FedOnce(MinMaxConnections)
  {
  }

  /** The section's slots are declared and its connections run forward
      into the nodes it wires. */
  lemma MinMaxInSection()
    ensures forall e | e in MinMaxConnections :: InSection(e, Rank(AnatMinMax), Rank(CalcInv))
  {
  }

  /** The section's `connect` calls, in the script's order. They all
      succeed, so they are issued as one list (`ConnectInSteps`). */
  method WireMinMax(nonreg: Workflow)
    requires nonreg.Valid() && ConnectedBelow(nonreg.edges, Rank(AnatMinMax))
    modifies nonreg
    ensures nonreg.Valid() && ConnectedBelow(nonreg.edges, Rank(CalcInv))
    ensures nonreg.edges == old(nonreg.edges) + MinMaxConnections
  {
    MinMaxFedOnce();
    MinMaxInSection();
    ExtendSection(nonreg.edges, MinMaxConnections, Rank(AnatMinMax), Rank(CalcInv));
    var ok := nonreg.ConnectList(MinMaxConnections);
    assert ok;
  }

  /** Every input the section's nodes declare is fed by the section. */
  lemma MinMaxFeedsDeclared()
    ensures forall s | HasInput(AnatMinMax, s) :: Fed(MinMaxConnections, AnatMinMax, s)
    ensures forall s | HasInput(EpiMinMax, s) :: Fed(MinMaxConnections, EpiMinMax, s)
  {
  }

  /** The section's connections are among the script's. */
  lemma MinMaxInScript()
    ensures forall e | e in MinMaxConnections :: e in ScriptConnections
  {
  }

  /** Lines 170-181: the `calc_inversion` function node. */
  const CalcInvConnections: seq<Edge> :=
    [Edge(AnatMinMax, OutStat, None, CalcInv, AnatMinMaxArg),
     Edge(EpiMinMax, OutStat, None, CalcInv, EpiMinMaxArg)]

  /** The section feeds no input twice. */
  lemma CalcInvFedOnce()
    ensures FedOnce(CalcInvConnections)
  {
  }

  /** The section's slots are declared and its connections run forward
      into the nodes it wires. */
  lemma CalcInvInSection()
    ensures forall e | e in CalcInvConnections :: InSection(e, Rank(CalcInv), Rank(MulInv))
  {
  }

  /** The section's `connect` calls, in the script's order. They all
      succeed, so they are issued as one list (`ConnectInSteps`). */
  method WireCalcInv(nonreg: Workflow)
    requires nonreg.Valid() && ConnectedBelow(nonreg.edges, Rank(CalcInv))
    modifies nonreg
    ensures nonreg.Valid() && ConnectedBelow(nonreg.edges, Rank(MulInv))
    ensures nonreg.edges == old(nonreg.edges) + CalcInvConnections
  {
    CalcInvFedOnce();
    CalcInvInSection();
    ExtendSection(nonreg.edges, CalcInvConnections, Rank(CalcInv), Rank(MulInv));
    var ok := nonreg.ConnectList(CalcInvConnections);
    assert ok;
  }

  /** Every input the section's nodes declare is fed by the section. */
  lemma CalcInvFeedsDeclared()
    ensures forall s | HasInput(CalcInv, s) :: Fed(CalcInvConnections, CalcInv, s)
  {
  }

  /** The section's connections are among the script's. */
  lemma CalcInvInScript()
    ensures forall e | e in CalcInvConnections :: e in ScriptConnections
  {
  }

  /** Lines 183-189: the inverted anatomical image, `mul` then `add`. */
  const InversionConnections: seq<Edge> :=
    [Edge(MaskAnat, OutFile, None, MulInv, InFile),
     Edge(CalcInv, Mul, None, MulInv, OperandValue),
     Edge(MulInv, OutFile, None, AddInv, InFile),
     Edge(CalcInv, Add, None, AddInv, OperandValue)]

  /** The section feeds no input twice. */
  lemma InversionFedOnce()
    ensures FedOnce(InversionConnections)
  {
  }

  /** The section's slots are declared and its connections run forward
      into the nodes it wires. */
  lemma InversionInSection()
    ensures forall e | e in InversionConnections :: InSection(e, Rank(MulInv), Rank(AntsReg))
  {
  }

  /** The section's `connect` calls, in the script's order. They all
      succeed, so they are issued as one list (`ConnectInSteps`). */
  method WireInversion(nonreg: Workflow)
    requires nonreg.Valid() && ConnectedBelow(nonreg.edges, Rank(MulInv))
    modifies nonreg
    ensures nonreg.Valid() && ConnectedBelow(nonreg.edges, Rank(AntsReg))
    ensures nonreg.edges == old(nonreg.edges) + InversionConnections
  {
    InversionFedOnce();
    InversionInSection();
    ExtendSection(nonreg.edges, InversionConnections, Rank(MulInv), Rank(AntsReg));
    var ok := nonreg.ConnectList(InversionConnections);
    assert ok;
  }

  /** Every input the section's nodes declare is fed by the section. */
  lemma InversionFeedsDeclared()
    ensures forall s | HasInput(MulInv, s) :: Fed(InversionConnections, MulInv, s)
    ensures forall s | HasInput(AddInv, s) :: Fed(InversionConnections, AddInv, s)
  {
  }

  /** The section's connections are among the script's. */
  lemma InversionInScript()
    ensures forall e | e in InversionConnections :: e in ScriptConnections
  {
  }

  /** Lines 192-217: nonlinear registration of the masked images. */
  const AntsRegConnections: seq<Edge> :=
    [Edge(Itk, ItkTransform, None, AntsReg, InitialMovingTransform),
     Edge(MaskEpi, OutFile, None, AntsReg, FixedImage),
     Edge(AddInv, OutFile, None, AntsReg, MovingImage)]

  /** The section feeds no input twice. */
  lemma AntsRegFedOnce()
    ensures FedOnce(AntsRegConnections)
  {
  }

  /** The section's slots are declared and its connections run forward
      into the nodes it wires. */
  lemma AntsRegInSection()
    ensures forall e | e in AntsRegConnections :: InSection(e, Rank(AntsReg), Rank(OutputNode))
  {
  }

  /** The section's `connect` calls, in the script's order. They all
      succeed, so they are issued as one list (`ConnectInSteps`). */
  method WireAntsReg(nonreg: Workflow)
    requires nonreg.Valid() && ConnectedBelow(nonreg.edges, Rank(AntsReg))
    modifies nonreg
    ensures nonreg.Valid() && ConnectedBelow(nonreg.edges, Rank(OutputNode))
    ensures nonreg.edges == old(nonreg.edges) + AntsRegConnections
  {
    AntsRegFedOnce();
    AntsRegInSection();
    ExtendSection(nonreg.edges, AntsRegConnections, Rank(AntsReg), Rank(OutputNode));
    var ok := nonreg.ConnectList(AntsRegConnections);
    assert ok;
  }

  /** Every input the section's nodes declare is fed by the section. */
  lemma AntsRegFeedsDeclared()
    ensures forall s | HasInput(AntsReg, s) :: Fed(AntsRegConnections, AntsReg, s)
  {
  }

  /** The section's connections are among the script's. */
  lemma AntsRegInScript()
    ensures forall e | e in AntsRegConnections :: e in ScriptConnections
  {
  }

  /** Lines 219-234: the four transforms handed out. */
  const OutputNodeConnections: seq<Edge> :=
    [Edge(Itk, ItkTransform, None, OutputNode, LinEpi2Anat),
     Edge(AntsReg, ForwardTransforms, Some(FirstElement), OutputNode, LinAnat2Epi),
     Edge(AntsReg, ForwardTransforms, Some(SecondElement), OutputNode, NonlinAnat2Epi),
     Edge(AntsReg, ReverseTransforms, Some(SecondElement), OutputNode, NonlinEpi2Anat)]

  /** The section feeds no input twice. */
  lemma OutputNodeFedOnce()
    ensures FedOnce(OutputNodeConnections)
  {
  }

  /** The section's slots are declared and its connections run forward
      into the nodes it wires. */
  lemma OutputNodeInSection()
    ensures forall e | e in OutputNodeConnections :: InSection(e, Rank(OutputNode), |CreationOrder|)
  {
  }

  /** The section's `connect` calls, in the script's order. They all
      succeed, so they are issued as one list (`ConnectInSteps`). */
  method WireOutputNode(nonreg: Workflow)
    requires nonreg.Valid() && ConnectedBelow(nonreg.edges, Rank(OutputNode))
    modifies nonreg
    ensures nonreg.Valid() && ConnectedBelow(nonreg.edges, |CreationOrder|)
    ensures nonreg.edges == old(nonreg.edges) + OutputNodeConnections
    ensures FeedsOf(nonreg.edges, OutputNode, LinEpi2Anat) == [Edge(Itk, ItkTransform, None, OutputNode, LinEpi2Anat)]
    ensures FeedsOf(nonreg.edges, OutputNode, LinAnat2Epi) == [Edge(AntsReg, ForwardTransforms, Some(FirstElement), OutputNode, LinAnat2Epi)]
    ensures FeedsOf(nonreg.edges, OutputNode, NonlinAnat2Epi) == [Edge(AntsReg, ForwardTransforms, Some(SecondElement), OutputNode, NonlinAnat2Epi)]
    ensures FeedsOf(nonreg.edges, OutputNode, NonlinEpi2Anat) == [Edge(AntsReg, ReverseTransforms, Some(SecondElement), OutputNode, NonlinEpi2Anat)]
  {
    OutputNodeFedOnce();
    OutputNodeInSection();
    ExtendSection(nonreg.edges, OutputNodeConnections, Rank(OutputNode), |CreationOrder|);
    var ok := nonreg.ConnectList(OutputNodeConnections);
    assert ok;
    FedExactlyOnce(nonreg.edges, Edge(Itk, ItkTransform, None, OutputNode, LinEpi2Anat));
    FedExactlyOnce(nonreg.edges, Edge(AntsReg, ForwardTransforms, Some(FirstElement), OutputNode, LinAnat2Epi));
    FedExactlyOnce(nonreg.edges, Edge(AntsReg, ForwardTransforms, Some(SecondElement), OutputNode, NonlinAnat2Epi));
    FedExactlyOnce(nonreg.edges, Edge(AntsReg, ReverseTransforms, Some(SecondElement), OutputNode, NonlinEpi2Anat));
  }

  /** Every input the section's nodes declare is fed by the section. */
  lemma OutputNodeFeedsDeclared()
    ensures forall s | HasInput(OutputNode, s) :: Fed(OutputNodeConnections, OutputNode, s)
  {
  }

  /** The section's connections are among the script's. */
  lemma OutputNodeInScript()
    ensures forall e | e in OutputNodeConnections :: e in ScriptConnections
  {
  }

  /** The script's connections up to and including the TMean section. */
  const ThroughTMean: seq<Edge> := TMeanConnections

  /** The script's connections up to and including the FreesurferImport section. */
  const ThroughFreesurferImport: seq<Edge> := ThroughTMean + FreesurferImportConnections

  /** The script's connections up to and including the MriConvert section. */
  const ThroughMriConvert: seq<Edge> := ThroughFreesurferImport + MriConvertConnections

  /** The script's connections up to and including the BbRegister section. */
  const ThroughBbRegister: seq<Edge> := ThroughMriConvert + BbRegisterConnections

  /** The script's connections up to and including the Itk section. */
  const ThroughItk: seq<Edge> := ThroughBbRegister + ItkConnections

  /** The script's connections up to and including the AparcAsegMask section. */
  const ThroughAparcAsegMask: seq<Edge> := ThroughItk + AparcAsegMaskConnections

  /** The script's connections up to and including the Fov section. */
  const ThroughFov: seq<Edge> := ThroughAparcAsegMask + FovConnections

  /** The script's connections up to and including the Intersect section. */
  const ThroughIntersect: seq<Edge> := ThroughFov + IntersectConnections

  /** The script's connections up to and including the MaskTrans section. */
  const ThroughMaskTrans: seq<Edge> := ThroughIntersect + MaskTransConnections

  /** The script's connections up to and including the MaskEpi section. */
  const ThroughMaskEpi: seq<Edge> := ThroughMaskTrans + MaskEpiConnections

  /** The script's connections up to and including the MaskAnat section. */
  const ThroughMaskAnat: seq<Edge> := ThroughMaskEpi + MaskAnatConnections

  /** The script's connections up to and including the MinMax section. */
  const ThroughMinMax: seq<Edge> := ThroughMaskAnat + MinMaxConnections

  /** The script's connections up to and including the CalcInv section. */
  const ThroughCalcInv: seq<Edge> := ThroughMinMax + CalcInvConnections

  /** The script's connections up to and including the Inversion section. */
  const ThroughInversion: seq<Edge> := ThroughCalcInv + InversionConnections

  /** The script's connections up to and including the AntsReg section. */
  const ThroughAntsReg: seq<Edge> := ThroughInversion + AntsRegConnections

  /** Every connection the script makes, in the order it makes them. */
  const ScriptConnections: seq<Edge> :=
    ThroughAntsReg + OutputNodeConnections

  /** The connections up to and including the TMean section are well
      formed and feed only nodes below the next section. */
  lemma ThroughTMeanWellFormed()
    ensures WellFormed(ThroughTMean) && ConnectedBelow(ThroughTMean, Rank(FreesurferImport))
  {
    TMeanFedOnce();
    TMeanInSection();
    ExtendSection([], TMeanConnections, Rank(TMean), Rank(FreesurferImport));
    AppendAdmissible([], TMeanConnections);
    assert [] + TMeanConnections == TMeanConnections;
  }

  /** The connections up to and including the FreesurferImport section are well
      formed and feed only nodes below the next section. */
  lemma ThroughFreesurferImportWellFormed()
    ensures WellFormed(ThroughFreesurferImport) && ConnectedBelow(ThroughFreesurferImport, Rank(MriConvert))
  {
    assert Rank(FreesurferImport) < Rank(MriConvert);
    ThroughTMeanWellFormed();
    FreesurferImportFedOnce();
    FreesurferImportInSection();
    ExtendSection(ThroughTMean, FreesurferImportConnections, Rank(FreesurferImport), Rank(MriConvert));
    AppendAdmissible(ThroughTMean, FreesurferImportConnections);
  }

  /** The connections up to and including the MriConvert section are well
      formed and feed only nodes below the next section. */
  lemma ThroughMriConvertWellFormed()
    ensures WellFormed(ThroughMriConvert) && ConnectedBelow(ThroughMriConvert, Rank(BbRegister))
  {
    assert Rank(MriConvert) < Rank(BbRegister);
    ThroughFreesurferImportWellFormed();
    MriConvertFedOnce();
    MriConvertInSection();
    ExtendSection(ThroughFreesurferImport, MriConvertConnections, Rank(MriConvert), Rank(BbRegister));
    AppendAdmissible(ThroughFreesurferImport, MriConvertConnections);
  }

  /** The connections up to and including the BbRegister section are well
      formed and feed only nodes below the next section. */
  lemma ThroughBbRegisterWellFormed()
    ensures WellFormed(ThroughBbRegister) && ConnectedBelow(ThroughBbRegister, Rank(Itk))
  {
    assert Rank(BbRegister) < Rank(Itk);
    ThroughMriConvertWellFormed();
    BbRegisterFedOnce();
    BbRegisterInSection();
    ExtendSection(ThroughMriConvert, BbRegisterConnections, Rank(BbRegister), Rank(Itk));
    AppendAdmissible(ThroughMriConvert, BbRegisterConnections);
  }

  /** The connections up to and including the Itk section are well
      formed and feed only nodes below the next section. */
  lemma ThroughItkWellFormed()
    ensures WellFormed(ThroughItk) && ConnectedBelow(ThroughItk, Rank(AparcAsegMask))
  {
    assert Rank(Itk) < Rank(AparcAsegMask);
    ThroughBbRegisterWellFormed();
    ItkFedOnce();
    ItkInSection();
    ExtendSection(ThroughBbRegister, ItkConnections, Rank(Itk), Rank(AparcAsegMask));
    AppendAdmissible(ThroughBbRegister, ItkConnections);
  }

  /** The connections up to and including the AparcAsegMask section are well
      formed and feed only nodes below the next section. */
  lemma ThroughAparcAsegMaskWellFormed()
    ensures WellFormed(ThroughAparcAsegMask) && ConnectedBelow(ThroughAparcAsegMask, Rank(Fov))
  {
    assert Rank(AparcAsegMask) < Rank(Fov);
    ThroughItkWellFormed();
    AparcAsegMaskFedOnce();
    AparcAsegMaskInSection();
    ExtendSection(ThroughItk, AparcAsegMaskConnections, Rank(AparcAsegMask), Rank(Fov));
    AppendAdmissible(ThroughItk, AparcAsegMaskConnections);
  }

  /** The connections up to and including the Fov section are well
      formed and feed only nodes below the next section. */
  lemma ThroughFovWellFormed()
    ensures WellFormed(ThroughFov) && ConnectedBelow(ThroughFov, Rank(Intersect))
  {
    assert Rank(Fov) < Rank(Intersect);
    ThroughAparcAsegMaskWellFormed();
    FovFedOnce();
    FovInSection();
    ExtendSection(ThroughAparcAsegMask, FovConnections, Rank(Fov), Rank(Intersect));
    AppendAdmissible(ThroughAparcAsegMask, FovConnections);
  }

  /** The connections up to and including the Intersect section are well
      formed and feed only nodes below the next section. */
  lemma ThroughIntersectWellFormed()
    ensures WellFormed(ThroughIntersect) && ConnectedBelow(ThroughIntersect, Rank(MaskTrans))
  {
    assert Rank(Intersect) < Rank(MaskTrans);
    ThroughFovWellFormed();
    IntersectFedOnce();
    IntersectInSection();
    ExtendSection(ThroughFov, IntersectConnections, Rank(Intersect), Rank(MaskTrans));
    AppendAdmissible(ThroughFov, IntersectConnections);
  }

  /** The connections up to and including the MaskTrans section are well
      formed and feed only nodes below the next section. */
  lemma ThroughMaskTransWellFormed()
    ensures WellFormed(ThroughMaskTrans) && ConnectedBelow(ThroughMaskTrans, Rank(MaskEpi))
  {
    assert Rank(MaskTrans) < Rank(MaskEpi);
    ThroughIntersectWellFormed();
    MaskTransFedOnce();
    MaskTransInSection();
    ExtendSection(ThroughIntersect, MaskTransConnections, Rank(MaskTrans), Rank(MaskEpi));
    AppendAdmissible(ThroughIntersect, MaskTransConnections);
  }

  /** The connections up to and including the MaskEpi section are well
      formed and feed only nodes below the next section. */
  lemma ThroughMaskEpiWellFormed()
    ensures WellFormed(ThroughMaskEpi) && ConnectedBelow(ThroughMaskEpi, Rank(MaskAnat))
  {
    assert Rank(MaskEpi) < Rank(MaskAnat);
    ThroughMaskTransWellFormed();
    MaskEpiFedOnce();
    MaskEpiInSection();
    ExtendSection(ThroughMaskTrans, MaskEpiConnections, Rank(MaskEpi), Rank(MaskAnat));
    AppendAdmissible(ThroughMaskTrans, MaskEpiConnections);
  }

  /** The connections up to and including the MaskAnat section are well
      formed and feed only nodes below the next section. */
  lemma ThroughMaskAnatWellFormed()
    ensures WellFormed(ThroughMaskAnat) && ConnectedBelow(ThroughMaskAnat, Rank(AnatMinMax))
  {
    assert Rank(MaskAnat) < Rank(AnatMinMax);
    ThroughMaskEpiWellFormed();
    MaskAnatFedOnce();
    MaskAnatInSection();
    ExtendSection(ThroughMaskEpi, MaskAnatConnections, Rank(MaskAnat), Rank(AnatMinMax));
    AppendAdmissible(ThroughMaskEpi, MaskAnatConnections);
  }

  /** The connections up to and including the MinMax section are well
      formed and feed only nodes below the next section. */
  lemma ThroughMinMaxWellFormed()
    ensures WellFormed(ThroughMinMax) && ConnectedBelow(ThroughMinMax, Rank(CalcInv))
  {
    assert Rank(AnatMinMax) < Rank(CalcInv);
    ThroughMaskAnatWellFormed();
    MinMaxFedOnce();
    MinMaxInSection();
    ExtendSection(ThroughMaskAnat, MinMaxConnections, Rank(AnatMinMax), Rank(CalcInv));
    AppendAdmissible(ThroughMaskAnat, MinMaxConnections);
  }

  /** The connections up to and including the CalcInv section are well
      formed and feed only nodes below the next section. */
  lemma ThroughCalcInvWellFormed()
    ensures WellFormed(ThroughCalcInv) && ConnectedBelow(ThroughCalcInv, Rank(MulInv))
  {
    assert Rank(CalcInv) < Rank(MulInv);
    ThroughMinMaxWellFormed();
    CalcInvFedOnce();
    CalcInvInSection();
    ExtendSection(ThroughMinMax, CalcInvConnections, Rank(CalcInv), Rank(MulInv));
    AppendAdmissible(ThroughMinMax, CalcInvConnections);
  }

  /** The connections up to and including the Inversion section are well
      formed and feed only nodes below the next section. */
  lemma ThroughInversionWellFormed()
    ensures WellFormed(ThroughInversion) && ConnectedBelow(ThroughInversion, Rank(AntsReg))
  {
    assert Rank(MulInv) < Rank(AntsReg);
    ThroughCalcInvWellFormed();
    InversionFedOnce();
    InversionInSection();
    ExtendSection(ThroughCalcInv, InversionConnections, Rank(MulInv), Rank(AntsReg));
    AppendAdmissible(ThroughCalcInv, InversionConnections);
  }

  /** The connections up to and including the AntsReg section are well
      formed and feed only nodes below the next section. */
  lemma ThroughAntsRegWellFormed()
    ensures WellFormed(ThroughAntsReg) && ConnectedBelow(ThroughAntsReg, Rank(OutputNode))
  {
    assert Rank(AntsReg) < Rank(OutputNode);
    ThroughInversionWellFormed();
    AntsRegFedOnce();
    AntsRegInSection();
    ExtendSection(ThroughInversion, AntsRegConnections, Rank(AntsReg), Rank(OutputNode));
    AppendAdmissible(ThroughInversion, AntsRegConnections);
  }

  /** The connections up to and including the OutputNode section are well
      formed and feed only nodes below the next section. */
  lemma ScriptWellFormed()
    ensures WellFormed(ScriptConnections) && ConnectedBelow(ScriptConnections, |CreationOrder|)
  {
    assert Rank(OutputNode) < |CreationOrder|;
    ThroughAntsRegWellFormed();
    OutputNodeFedOnce();
    OutputNodeInSection();
    ExtendSection(ThroughAntsReg, OutputNodeConnections, Rank(OutputNode), |CreationOrder|);
    AppendAdmissible(ThroughAntsReg, OutputNodeConnections);
  }

  /** The inputs of the TMean section's nodes are each fed once in the script. */
  lemma TMeanFeedsOnce(n: NodeId, s: Slot)
    requires n == TMean
    requires HasInput(n, s) && FedOnce(ScriptConnections)
    ensures |FeedsOf(ScriptConnections, n, s)| == 1
  {
    TMeanFeedsDeclared();
    TMeanInScript();
    var e :| e in TMeanConnections && e.dst == n && e.inp == s;
    FedExactlyOnce(ScriptConnections, e);
  }

  /** The inputs of the FreesurferImport section's nodes are each fed once in the script. */
  lemma FreesurferImportFeedsOnce(n: NodeId, s: Slot)
    requires n == FreesurferImport
    requires HasInput(n, s) && FedOnce(ScriptConnections)
    ensures |FeedsOf(ScriptConnections, n, s)| == 1
  {
    FreesurferImportFeedsDeclared();
    FreesurferImportInScript();
    var e :| e in FreesurferImportConnections && e.dst == n && e.inp == s;
    FedExactlyOnce(ScriptConnections, e);
  }

  /** The inputs of the MriConvert section's nodes are each fed once in the script. */
  lemma MriConvertFeedsOnce(n: NodeId, s: Slot)
    requires n == MriConvert
    requires HasInput(n, s) && FedOnce(ScriptConnections)
    ensures |FeedsOf(ScriptConnections, n, s)| == 1
  {
    MriConvertFeedsDeclared();
    MriConvertInScript();
    var e :| e in MriConvertConnections && e.dst == n && e.inp == s;
    FedExactlyOnce(ScriptConnections, e);
  }

  /** The inputs of the BbRegister section's nodes are each fed once in the script. */
  lemma BbRegisterFeedsOnce(n: NodeId, s: Slot)
    requires n == BbRegister
    requires HasInput(n, s) && FedOnce(ScriptConnections)
    ensures |FeedsOf(ScriptConnections, n, s)| == 1
  {
    BbRegisterFeedsDeclared();
    BbRegisterInScript();
    var e :| e in BbRegisterConnections && e.dst == n && e.inp == s;
    FedExactlyOnce(ScriptConnections, e);
  }

  /** The inputs of the Itk section's nodes are each fed once in the script. */
  lemma ItkFeedsOnce(n: NodeId, s: Slot)
    requires n == Itk
    requires HasInput(n, s) && FedOnce(ScriptConnections)
    ensures |FeedsOf(ScriptConnections, n, s)| == 1
  {
    ItkFeedsDeclared();
    ItkInScript();
    var e :| e in ItkConnections && e.dst == n && e.inp == s;
    FedExactlyOnce(ScriptConnections, e);
  }

  /** The inputs of the AparcAsegMask section's nodes are each fed once in the script. */
  lemma AparcAsegMaskFeedsOnce(n: NodeId, s: Slot)
    requires n == AparcAsegMask || n == FillHoles
    requires HasInput(n, s) && FedOnce(ScriptConnections)
    ensures |FeedsOf(ScriptConnections, n, s)| == 1
  {
    AparcAsegMaskFeedsDeclared();
    AparcAsegMaskInScript();
    var e :| e in AparcAsegMaskConnections && e.dst == n && e.inp == s;
    FedExactlyOnce(ScriptConnections, e);
  }

  /** The inputs of the Fov section's nodes are each fed once in the script. */
  lemma FovFeedsOnce(n: NodeId, s: Slot)
    requires n == Fov || n == FovTrans
    requires HasInput(n, s) && FedOnce(ScriptConnections)
    ensures |FeedsOf(ScriptConnections, n, s)| == 1
  {
    FovFeedsDeclared();
    FovInScript();
    var e :| e in FovConnections && e.dst == n && e.inp == s;
    FedExactlyOnce(ScriptConnections, e);
  }

  /** The inputs of the Intersect section's nodes are each fed once in the script. */
  lemma IntersectFeedsOnce(n: NodeId, s: Slot)
    requires n == Intersect
    requires HasInput(n, s) && FedOnce(ScriptConnections)
    ensures |FeedsOf(ScriptConnections, n, s)| == 1
  {
    IntersectFeedsDeclared();
    IntersectInScript();
    var e :| e in IntersectConnections && e.dst == n && e.inp == s;
    FedExactlyOnce(ScriptConnections, e);
  }

  /** The inputs of the MaskTrans section's nodes are each fed once in the script. */
  lemma MaskTransFeedsOnce(n: NodeId, s: Slot)
    requires n == MaskTrans
    requires HasInput(n, s) && FedOnce(ScriptConnections)
    ensures |FeedsOf(ScriptConnections, n, s)| == 1
  {
    MaskTransFeedsDeclared();
    MaskTransInScript();
    var e :| e in MaskTransConnections && e.dst == n && e.inp == s;
    FedExactlyOnce(ScriptConnections, e);
  }

  /** The inputs of the MaskEpi section's nodes are each fed once in the script. */
  lemma MaskEpiFeedsOnce(n: NodeId, s: Slot)
    requires n == MaskEpi
    requires HasInput(n, s) && FedOnce(ScriptConnections)
    ensures |FeedsOf(ScriptConnections, n, s)| == 1
  {
    MaskEpiFeedsDeclared();
    MaskEpiInScript();
    var e :| e in MaskEpiConnections && e.dst == n && e.inp == s;
    FedExactlyOnce(ScriptConnections, e);
  }

  /** The inputs of the MaskAnat section's nodes are each fed once in the script. */
  lemma MaskAnatFeedsOnce(n: NodeId, s: Slot)
    requires n == MaskAnat
    requires HasInput(n, s) && FedOnce(ScriptConnections)
    ensures |FeedsOf(ScriptConnections, n, s)| == 1
  {
    MaskAnatFeedsDeclared();
    MaskAnatInScript();
    var e :| e in MaskAnatConnections && e.dst == n && e.inp == s;
    FedExactlyOnce(ScriptConnections, e);
  }

  /** The inputs of the MinMax section's nodes are each fed once in the script. */
  lemma MinMaxFeedsOnce(n: NodeId, s: Slot)
    requires n == AnatMinMax || n == EpiMinMax
    requires HasInput(n, s) && FedOnce(ScriptConnections)
    ensures |FeedsOf(ScriptConnections, n, s)| == 1
  {
    MinMaxFeedsDeclared();
    MinMaxInScript();
    var e :| e in MinMaxConnections && e.dst == n && e.inp == s;
    FedExactlyOnce(ScriptConnections, e);
  }

  /** The inputs of the CalcInv section's nodes are each fed once in the script. */
  lemma CalcInvFeedsOnce(n: NodeId, s: Slot)
    requires n == CalcInv
    requires HasInput(n, s) && FedOnce(ScriptConnections)
    ensures |FeedsOf(ScriptConnections, n, s)| == 1
  {
    CalcInvFeedsDeclared();
    CalcInvInScript();
    var e :| e in CalcInvConnections && e.dst == n && e.inp == s;
    FedExactlyOnce(ScriptConnections, e);
  }

  /** The inputs of the Inversion section's nodes are each fed once in the script. */
  lemma InversionFeedsOnce(n: NodeId, s: Slot)
    requires n == MulInv || n == AddInv
    requires HasInput(n, s) && FedOnce(ScriptConnections)
    ensures |FeedsOf(ScriptConnections, n, s)| == 1
  {
    InversionFeedsDeclared();
    InversionInScript();
    var e :| e in InversionConnections && e.dst == n && e.inp == s;
    FedExactlyOnce(ScriptConnections, e);
  }

  /** The inputs of the AntsReg section's nodes are each fed once in the script. */
  lemma AntsRegFeedsOnce(n: NodeId, s: Slot)
    requires n == AntsReg
    requires HasInput(n, s) && FedOnce(ScriptConnections)
    ensures |FeedsOf(ScriptConnections, n, s)| == 1
  {
    AntsRegFeedsDeclared();
    AntsRegInScript();
    var e :| e in AntsRegConnections && e.dst == n && e.inp == s;
    FedExactlyOnce(ScriptConnections, e);
  }

  /** The inputs of the OutputNode section's nodes are each fed once in the script. */
  lemma OutputNodeFeedsOnce(n: NodeId, s: Slot)
    requires n == OutputNode
    requires HasInput(n, s) && FedOnce(ScriptConnections)
    ensures |FeedsOf(ScriptConnections, n, s)| == 1
  {
    OutputNodeFeedsDeclared();
    OutputNodeInScript();
    var e :| e in OutputNodeConnections && e.dst == n && e.inp == s;
    FedExactlyOnce(ScriptConnections, e);
  }

  /** Every input slot a node declares is connected exactly once, the
      input node's fields aside: those are bound by the caller. */
  lemma ScriptFeedsEveryInput(n: NodeId, s: Slot)
    requires n != InputNode && HasInput(n, s)
    ensures |FeedsOf(ScriptConnections, n, s)| == 1
  {
    ScriptWellFormed();
    match n
    case InputNode => assert false;
    case TMean => TMeanFeedsOnce(n, s);
    case FreesurferImport => FreesurferImportFeedsOnce(n, s);
    case MriConvert => MriConvertFeedsOnce(n, s);
    case BbRegister => BbRegisterFeedsOnce(n, s);
    case Itk => ItkFeedsOnce(n, s);
    case AparcAsegMask => AparcAsegMaskFeedsOnce(n, s);
    case FillHoles => AparcAsegMaskFeedsOnce(n, s);
    case Fov => FovFeedsOnce(n, s);
    case FovTrans => FovFeedsOnce(n, s);
    case Intersect => IntersectFeedsOnce(n, s);
    case MaskTrans => MaskTransFeedsOnce(n, s);
    case MaskEpi => MaskEpiFeedsOnce(n, s);
    case MaskAnat => MaskAnatFeedsOnce(n, s);
    case AnatMinMax => MinMaxFeedsOnce(n, s);
    case EpiMinMax => MinMaxFeedsOnce(n, s);
    case CalcInv => CalcInvFeedsOnce(n, s);
    case MulInv => InversionFeedsOnce(n, s);
    case AddInv => InversionFeedsOnce(n, s);
    case AntsReg => AntsRegFeedsOnce(n, s);
    case OutputNode => OutputNodeFeedsOnce(n, s);
  }

  /** The whole function: a fresh workflow named `epi_t1_nonlinear` holding
      exactly the script's connections, all declared, no input fed twice,
      all running forward in creation order, with the four outputs fed as
      the script feeds them. The `name` argument is ignored, as in the
      script. */
  method CreateEpiT1NonlinearPipeline(name: string) returns (nonreg: Workflow)
    ensures fresh(nonreg) && nonreg.Valid()
    ensures nonreg.name == WorkflowName
    ensures nonreg.edges == ScriptConnections
    ensures FollowsCreationOrder(nonreg.edges)
    ensures FeedsOf(nonreg.edges, OutputNode, LinEpi2Anat) == [Edge(Itk, ItkTransform, None, OutputNode, LinEpi2Anat)]
    ensures FeedsOf(nonreg.edges, OutputNode, LinAnat2Epi) == [Edge(AntsReg, ForwardTransforms, Some(FirstElement), OutputNode, LinAnat2Epi)]
    ensures FeedsOf(nonreg.edges, OutputNode, NonlinAnat2Epi) == [Edge(AntsReg, ForwardTransforms, Some(SecondElement), OutputNode, NonlinAnat2Epi)]
    ensures FeedsOf(nonreg.edges, OutputNode, NonlinEpi2Anat) == [Edge(AntsReg, ReverseTransforms, Some(SecondElement), OutputNode, NonlinEpi2Anat)]
  {
    nonreg := new Workflow(WorkflowName);
    WireTMean(nonreg);
    assert nonreg.edges == TMeanConnections;
    WireFreesurferImport(nonreg);
    WireMriConvert(nonreg);
    WireBbRegister(nonreg);
    WireItk(nonreg);
    WireAparcAsegMask(nonreg);
    WireFov(nonreg);
    WireIntersect(nonreg);
    WireMaskTrans(nonreg);
    WireMaskEpi(nonreg);
    WireMaskAnat(nonreg);
    WireMinMax(nonreg);
    WireCalcInv(nonreg);
    WireInversion(nonreg);
    WireAntsReg(nonreg);
    WireOutputNode(nonreg);
  }
}

