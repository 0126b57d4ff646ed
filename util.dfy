/** pkg/resource/util.go: canonicalisation of resource type names. */
module ResourceUtil {
  import opened Text

  const AwsPrefix: string := "aws_"

  /** PrefixResourceType: a bare type name gets the Terraform AWS provider's "aws_" prefix. */
  function PrefixResourceType(rType: string): (r: string)
    ensures HasPrefix(r, AwsPrefix)
    ensures |r| == |rType| || |r| == |rType| + |AwsPrefix|
    ensures r[|r| - |rType|..] == rType
  {
    if !HasPrefix(rType, AwsPrefix) then AwsPrefix + rType else rType
  }

  /** An already prefixed type is returned unchanged, and only such a type is. */
  lemma PrefixUnchangedIff(rType: string)
    ensures PrefixResourceType(rType) == rType <==> HasPrefix(rType, AwsPrefix)
  {
  }

  /** Any other type gets exactly the prefix in front. */
  lemma PrefixAdded(rType: string)
    requires !HasPrefix(rType, AwsPrefix)
    ensures PrefixResourceType(rType) == AwsPrefix + rType
  {
  }

  lemma PrefixIdempotent(rType: string)
    ensures PrefixResourceType(PrefixResourceType(rType)) == PrefixResourceType(rType)
  {
  }

  /** The example of the acceptance tests: "vpc" is canonicalised to "aws_vpc". */
  lemma PrefixVpc()
    ensures PrefixResourceType("vpc") == "aws_vpc"
    ensures PrefixResourceType("aws_vpc") == "aws_vpc"
  {
    assert !HasPrefix("vpc", AwsPrefix);
  }
}
