/** The images and tarballs that are inputs of a profile. */
module ContainerAssets {
  datatype ContainerAsset = ContainerAsset(imageRef: string, ociPath: string, tarballPath: string, forceInsecure: bool)
}
