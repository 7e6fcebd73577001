/** Which disk a launch boots from, and the typed storage list made from legacy fields. */
module Storage {
  import opened LaunchSchema

  datatype Disk = Disk(path: string, format: string)

  predicate IsRoot(s: StorageAttachment) {
    s.mountPoint == "/" || s.mountPoint == ""
  }

  function DiskOf(s: StorageAttachment): Disk {
    Disk(s.hostPath, if s.format == "" then "raw" else s.format)
  }

  /** `k` is the first root attachment, or the first of all when there is no root. */
  ghost predicate IsPrimary(storage: seq<StorageAttachment>, k: nat) {
    && k < |storage|
    && (forall j | 0 <= j < k :: !IsRoot(storage[j]))
    && (IsRoot(storage[k]) || (k == 0 && forall j | 0 <= j < |storage| :: !IsRoot(storage[j])))
  }

  function FirstRoot(storage: seq<StorageAttachment>): nat {
    if storage == [] || IsRoot(storage[0]) then 0 else 1 + FirstRoot(storage[1..])
  }

  function PrimaryIndex(storage: seq<StorageAttachment>): nat {
    var k := FirstRoot(storage);
    if k < |storage| then k else 0
  }

  lemma {:induction false} FirstRootIsFirst(storage: seq<StorageAttachment>)
    ensures var k := FirstRoot(storage);
            && k <= |storage|
            && (forall j | 0 <= j < k :: !IsRoot(storage[j]))
            && (k < |storage| ==> IsRoot(storage[k]))
  {
    if storage != [] && !IsRoot(storage[0]) {
      FirstRootIsFirst(storage[1..]);
      assert forall j | 1 <= j < |storage| :: storage[j] == storage[1..][j - 1];
    }
  }

  /** The primary disk is the primary attachment of a non-empty list, and no other. */
  lemma PrimaryIndexIsPrimary(storage: seq<StorageAttachment>, k: nat)
    requires storage != []
    ensures IsPrimary(storage, k) <==> k == PrimaryIndex(storage)
  {
    FirstRootIsFirst(storage);
  }

  /** Typed storage first, then the legacy image; ("", "") when there is neither. */
  function PrimaryDisk(spec: LaunchSpec): Disk {
    if spec.storage != [] then
      FirstRootIsFirst(spec.storage);
      DiskOf(spec.storage[PrimaryIndex(spec.storage)])
    else if spec.imageReference != "" then Disk(spec.imageReference, "qcow2")
    else Disk("", "")
  }

  method ResolvePrimaryDisk(spec: LaunchSpec) returns (path: string, format: string)
    ensures Disk(path, format) == PrimaryDisk(spec)
  {
    if |spec.storage| > 0 {
      for k := 0 to |spec.storage|
        invariant forall j | 0 <= j < k :: !IsRoot(spec.storage[j])
      {
        var s := spec.storage[k];
        if s.mountPoint == "/" || s.mountPoint == "" {
          format := s.format;
          if format == "" {
            format := "raw";
          }
          PrimaryIndexIsPrimary(spec.storage, k);
          return s.hostPath, format;
        }
      }
      PrimaryIndexIsPrimary(spec.storage, 0);
      format := spec.storage[0].format;
      if format == "" {
        format := "raw";
      }
      return spec.storage[0].hostPath, format;
    }
    if spec.imageReference != "" {
      return spec.imageReference, "qcow2";
    }
    return "", "";
  }

  // ---------- MicroVM ----------

  predicate IsKernel(s: StorageAttachment) {
    s.mountPoint != "/" && (s.mountPoint == "/boot/vmlinux" || (s.format == "raw" && s.readOnly))
  }

  /** The host path of the last attachment mounted at "/". */
  function LastRootfs(storage: seq<StorageAttachment>): string {
    if storage == [] then ""
    else
      var s := storage[|storage| - 1];
      if s.mountPoint == "/" then s.hostPath else LastRootfs(storage[..|storage| - 1])
  }

  function LastKernel(storage: seq<StorageAttachment>): string {
    if storage == [] then ""
    else
      var s := storage[|storage| - 1];
      if IsKernel(s) then s.hostPath else LastKernel(storage[..|storage| - 1])
  }

  ghost predicate IsLast(storage: seq<StorageAttachment>, kind: StorageAttachment -> bool, path: string) {
    if forall s | s in storage :: !kind(s) then path == ""
    else exists k | 0 <= k < |storage| ::
           kind(storage[k]) && storage[k].hostPath == path && forall j | k < j < |storage| :: !kind(storage[j])
  }

  function Rootfs(): StorageAttachment -> bool {
    (s: StorageAttachment) => s.mountPoint == "/"
  }

  function Kernel(): StorageAttachment -> bool {
    (s: StorageAttachment) =>
      s.mountPoint == "/boot/vmlinux" || (s.mountPoint != "/" && s.format == "raw" && s.readOnly)
  }

  /** Later attachments override earlier ones. */
  lemma {:induction false} LastOnesAreLast(storage: seq<StorageAttachment>)
    ensures IsLast(storage, Rootfs(), LastRootfs(storage))
    ensures IsLast(storage, Kernel(), LastKernel(storage))
  {
    if storage != [] {
      var n := |storage| - 1;
      LastOnesAreLast(storage[..n]);
      OneMoreLast(storage, Rootfs(), LastRootfs(storage[..n]));
      OneMoreLast(storage, Kernel(), LastKernel(storage[..n]));
    }
  }

  lemma OneMoreLast(storage: seq<StorageAttachment>, kind: StorageAttachment -> bool, path: string)
    requires storage != [] && IsLast(storage[..|storage| - 1], kind, path)
    ensures var last := storage[|storage| - 1];
            IsLast(storage, kind, if kind(last) then last.hostPath else path)
  {
    var n := |storage| - 1;
    assert storage[n] in storage && forall s | s in storage[..n] :: s in storage;
    if !kind(storage[n]) && exists s | s in storage[..n] :: kind(s) {
      var k :| 0 <= k < n && kind(storage[..n][k]) && storage[..n][k].hostPath == path
               && forall j | k < j < n :: !kind(storage[..n][j]);
      assert kind(storage[k]) && storage[k].hostPath == path;
      forall j | k < j < |storage| ensures !kind(storage[j]) {
        assert j < n ==> storage[..n][j] == storage[j];
      }
    }
  }

  datatype MicroDisks = MicroDisks(kernel: string, rootfs: string)

  /** Both from the typed storage, or both from the legacy fields. */
  function FirecrackerDisks(spec: LaunchSpec): MicroDisks {
    var kernel, rootfs := LastKernel(spec.storage), LastRootfs(spec.storage);
    if kernel != "" && rootfs != "" then MicroDisks(kernel, rootfs)
    else MicroDisks(spec.kernelImagePath, spec.rootfsPath)
  }

  method ResolveFirecrackerDisks(spec: LaunchSpec) returns (kernel: string, rootfs: string)
    ensures MicroDisks(kernel, rootfs) == FirecrackerDisks(spec)
  {
    kernel, rootfs := "", "";
    if |spec.storage| > 0 {
      for k := 0 to |spec.storage|
        invariant kernel == LastKernel(spec.storage[..k]) && rootfs == LastRootfs(spec.storage[..k])
      {
        assert spec.storage[..k + 1][..k] == spec.storage[..k];
        var s := spec.storage[k];
        if s.mountPoint == "/" {
          rootfs := s.hostPath;
        } else if s.mountPoint == "/boot/vmlinux" || (s.format == "raw" && s.readOnly) {
          kernel := s.hostPath;
        }
      }
      assert spec.storage[..|spec.storage|] == spec.storage;
      if kernel != "" && rootfs != "" {
        return;
      }
    }
    return spec.kernelImagePath, spec.rootfsPath;
  }

  // ---------- Normalisation ----------

  function NormalizeStorage(spec: LaunchSpec): seq<StorageAttachment> {
    if spec.storage != [] then spec.storage
    else if spec.runtimeClass.MicroVM? then
      if spec.kernelImagePath != "" && spec.rootfsPath != "" then
        [StorageAttachment(spec.rootfsPath, false, "ext4", "/"),
         StorageAttachment(spec.kernelImagePath, true, "raw", "/boot/vmlinux")]
      else []
    else if spec.imageReference != "" then [StorageAttachment(spec.imageReference, false, "qcow2", "")]
    else []
  }

  /** Normalising the storage does not change what is booted. */
  lemma NormalizationKeepsPrimaryDisk(spec: LaunchSpec)
    requires !spec.runtimeClass.MicroVM?
    ensures PrimaryDisk(spec.(storage := NormalizeStorage(spec))) == PrimaryDisk(spec)
  {
  }

  lemma NormalizationKeepsFirecrackerDisks(spec: LaunchSpec)
    requires spec.runtimeClass.MicroVM?
    ensures FirecrackerDisks(spec.(storage := NormalizeStorage(spec))) == FirecrackerDisks(spec)
  {
    var n := NormalizeStorage(spec);
    if spec.storage == [] && n != [] {
      var root, kernel := n[0], n[1];
      assert n[..1] == [root] && [root][..0] == [];
      assert LastRootfs(n) == LastRootfs([root]) == spec.rootfsPath;
      assert LastKernel(n) == spec.kernelImagePath;
    }
  }

  /** Normalisation finds storage exactly when resolution finds a disk, unless the primary
      attachment names no host path; then, and only then, the two differ. */
  lemma NormalizedIffBootable(spec: LaunchSpec)
    requires !spec.runtimeClass.MicroVM?
    ensures (NormalizeStorage(spec) != [] <==> PrimaryDisk(spec).path != "") <==>
            (spec.storage == [] || forall k: nat | IsPrimary(spec.storage, k) :: spec.storage[k].hostPath != "")
  {
    if spec.storage != [] {
      FirstRootIsFirst(spec.storage);
      PrimaryIndexIsPrimary(spec.storage, PrimaryIndex(spec.storage));
      forall k: nat | IsPrimary(spec.storage, k)
        ensures k == PrimaryIndex(spec.storage)
      {
        PrimaryIndexIsPrimary(spec.storage, k);
      }
    }
  }

  // ---------- The disks by name ----------

  /** The disk is the first attachment mounted at "/" or nowhere, in its own format or raw. */
  lemma FirstRootIsTheDisk(spec: LaunchSpec, k: nat)
    requires k < |spec.storage| && (spec.storage[k].mountPoint == "/" || spec.storage[k].mountPoint == "")
    requires forall j | 0 <= j < k :: spec.storage[j].mountPoint != "/" && spec.storage[j].mountPoint != ""
    ensures PrimaryDisk(spec) ==
            Disk(spec.storage[k].hostPath, if spec.storage[k].format == "" then "raw" else spec.storage[k].format)
  {
    PrimaryIndexIsPrimary(spec.storage, k);
  }

  /** Without one it is the first attachment of all; without attachments the image, as qcow2. */
  lemma DiskWithoutRoot(spec: LaunchSpec)
    requires forall s | s in spec.storage :: s.mountPoint != "/" && s.mountPoint != ""
    ensures PrimaryDisk(spec) ==
            if spec.storage != [] then
              Disk(spec.storage[0].hostPath, if spec.storage[0].format == "" then "raw" else spec.storage[0].format)
            else if spec.imageReference != "" then Disk(spec.imageReference, "qcow2")
            else Disk("", "")
  {
    if spec.storage != [] {
      PrimaryIndexIsPrimary(spec.storage, 0);
    }
  }

  /** A micro VM boots from its attachments if they give both a kernel and a root file system, and
      from the legacy paths if not. */
  lemma MicroDisksFromOneSource(spec: LaunchSpec)
    ensures exists kernel, rootfs ::
              && IsLast(spec.storage, Kernel(), kernel) && IsLast(spec.storage, Rootfs(), rootfs)
              && FirecrackerDisks(spec) == if kernel != "" && rootfs != "" then MicroDisks(kernel, rootfs)
                                           else MicroDisks(spec.kernelImagePath, spec.rootfsPath)
  {
    LastOnesAreLast(spec.storage);
    assert IsLast(spec.storage, Kernel(), LastKernel(spec.storage));
    assert IsLast(spec.storage, Rootfs(), LastRootfs(spec.storage));
  }

  /** What the legacy fields become: an image for a virtual machine; a writable ext4 root and a
      read-only raw kernel for a micro VM, if both are given. */
  lemma LegacyStorage(spec: LaunchSpec)
    requires spec.storage == []
    ensures NormalizeStorage(spec) ==
            if spec.runtimeClass == MicroVM then
              if spec.kernelImagePath == "" || spec.rootfsPath == "" then []
              else [StorageAttachment(spec.rootfsPath, false, "ext4", "/"),
                    StorageAttachment(spec.kernelImagePath, true, "raw", "/boot/vmlinux")]
            else if spec.imageReference == "" then []
            else [StorageAttachment(spec.imageReference, false, "qcow2", "")]
  {
  }
}
