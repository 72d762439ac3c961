/** Official extensions and how a schematic's names are looked up among them (internal/profile/profile.go and
enterprise/spdx/builder/builder.go do so alike). */
module Extensions {
  import opened Strings

  /** An extension that is available for some version: its repository and the digest of its image. */
  datatype ExtensionRef = ExtensionRef(repository: string, digest: string)

  function FindExtension(available: seq<ExtensionRef>, name: string): Option<ExtensionRef> {
    if available == [] then None
    else if available[0].repository == name then Some(available[0])
    else FindExtension(available[1..], name)
  }

  /** Names that were wrong in a manifest once, or that were changed. */
  function ExtensionNameAlias(name: string): Option<string> {
    if name == "siderolabs/v4l-uvc" then Some("siderolabs/v4l-uvc-drivers")
    else if name == "siderolabs/usb-modem" then Some("siderolabs/usb-modem-drivers")
    else if name == "siderolabs/gasket" then Some("siderolabs/gasket-driver")
    else if name == "siderolabs/talos-vmtoolsd" then Some("siderolabs/vmtoolsd-guest-agent")
    else if name == "siderolabs/xe-guest-utilities" then Some("siderolabs/xen-guest-agent")
    else if name == "siderolabs/nvidia-container-toolkit" then Some("siderolabs/nvidia-container-toolkit-lts")
    else if name == "siderolabs/nvidia-open-gpu-kernel-modules" then
        Some("siderolabs/nvidia-open-gpu-kernel-modules-lts")
    else if name == "siderolabs/nonfree-kmod-nvidia" then Some("siderolabs/nonfree-kmod-nvidia-lts")
    else if name == "siderolabs/nvidia-fabricmanager" then Some("siderolabs/nvidia-fabric-manager-lts")
    else if name == "siderolabs/i915-ucode" then Some("siderolabs/i915")
    else if name == "siderolabs/amdgpu-firmware" then Some("siderolabs/amdgpu")
    else None
  }

  /** The extension of that name, or of the name it has now. */
  function Resolve(available: seq<ExtensionRef>, name: string): Option<ExtensionRef> {
    match FindExtension(available, name)
    case Some(r) => Some(r)
    case None =>
      match ExtensionNameAlias(name)
      case None => None
      case Some(other) => FindExtension(available, other)
  }

  // ---------------------------------------------------------------- which extension a name means

  const RENAMED: map<string, string> := map[
    "siderolabs/v4l-uvc" := "siderolabs/v4l-uvc-drivers",
    "siderolabs/usb-modem" := "siderolabs/usb-modem-drivers",
    "siderolabs/gasket" := "siderolabs/gasket-driver",
    "siderolabs/talos-vmtoolsd" := "siderolabs/vmtoolsd-guest-agent",
    "siderolabs/xe-guest-utilities" := "siderolabs/xen-guest-agent",
    "siderolabs/nvidia-container-toolkit" := "siderolabs/nvidia-container-toolkit-lts",
    "siderolabs/nvidia-open-gpu-kernel-modules" := "siderolabs/nvidia-open-gpu-kernel-modules-lts",
    "siderolabs/nonfree-kmod-nvidia" := "siderolabs/nonfree-kmod-nvidia-lts",
    "siderolabs/nvidia-fabricmanager" := "siderolabs/nvidia-fabric-manager-lts",
    "siderolabs/i915-ucode" := "siderolabs/i915",
    "siderolabs/amdgpu-firmware" := "siderolabs/amdgpu"]

  /** The first extension of its repository. */
  ghost predicate Lists(available: seq<ExtensionRef>, name: string, ref: ExtensionRef) {
    exists i :: 0 <= i < |available| && available[i] == ref && ref.repository == name
                && forall j :: 0 <= j < i ==> available[j].repository != name
  }

  /** An extension is meant by its name, or, if nothing has that name, by a name it once had. */
  ghost predicate IsMeant(available: seq<ExtensionRef>, name: string, ref: ExtensionRef) {
    || Lists(available, name, ref)
    || ((forall e :: e in available ==> e.repository != name) && name in RENAMED
        && Lists(available, RENAMED[name], ref))
  }

  lemma {:induction false} FindsFirst(available: seq<ExtensionRef>, name: string, ref: ExtensionRef)
    ensures FindExtension(available, name) == Some(ref) <==> Lists(available, name, ref)
    ensures FindExtension(available, name) == None <==> forall e :: e in available ==> e.repository != name
  {
    if available != [] {
      var rest := available[1..];
      FindsFirst(rest, name, ref);
      assert forall e :: e in available <==> e == available[0] || e in rest;
      if available[0].repository != name {
        if Lists(rest, name, ref) {
          var i :| 0 <= i < |rest| && rest[i] == ref && ref.repository == name
                   && forall j :: 0 <= j < i ==> rest[j].repository != name;
          assert available[i + 1] == ref;
          assert forall j :: 0 < j < i + 1 ==> available[j] == rest[j - 1];
        }
        if Lists(available, name, ref) {
          var i :| 0 <= i < |available| && available[i] == ref && ref.repository == name
                   && forall j :: 0 <= j < i ==> available[j].repository != name;
          assert rest[i - 1] == ref;
          assert forall j :: 0 <= j < i - 1 ==> rest[j] == available[j + 1];
        }
      }
    }
  }

  lemma AliasIs(name: string)
    ensures ExtensionNameAlias(name) == if name in RENAMED then Some(RENAMED[name]) else None
  {
  }

  lemma ResolvesIff(available: seq<ExtensionRef>, name: string, ref: ExtensionRef)
    ensures Resolve(available, name) == Some(ref) <==> IsMeant(available, name, ref)
  {
    AliasIs(name);
    FindsFirst(available, name, ref);
    if name in RENAMED {
      FindsFirst(available, RENAMED[name], ref);
    }
    hide FindExtension, ExtensionNameAlias, Lists;
    if Lists(available, name, ref) {
      assert FindExtension(available, name) == Some(ref);
    }
  }
}
