/** The rows the hosted database returns (src/integrations/supabase/types.ts),
    with timestamps already parsed to integers, and the image fallback that the
    car list and the car details page both apply to a car's joined images. */
module Rows {
  import opened Types

  /** One `car_availability` row; `status` is free text in the table. */
  datatype AvailabilityRow = AvailabilityRow(startDate: int, endDate: int, status: string)

  /** One `car_images` row. */
  datatype ImageRow = ImageRow(imageUrl: string)

  /** One `cars` row with its joined `car_images` and `car_availability`. */
  datatype CarRow = CarRow(
    id: int,
    name: string,
    brand: string,
    dailyRate: real,
    description: string,
    engine: Option<string>,
    power: Option<string>,
    acceleration: Option<string>,
    transmission: Option<string>,
    userId: Option<string>,
    location: Option<string>,
    phoneNumber: Option<string>,
    featured: Option<bool>,
    city: City,
    createdAt: int,
    images: Option<seq<ImageRow>>,
    availability: Option<seq<AvailabilityRow>>)

  /** One `profiles` row. */
  datatype ProfileRow = ProfileRow(
    id: string,
    name: string,
    userType: string,
    phoneNumber: Option<string>,
    location: Option<string>,
    isBanned: Option<bool>,
    isScammer: Option<bool>,
    avatarUrl: Option<string>,
    createdAt: int)

  const Placeholder: string := "/placeholder.svg"

  /** `car_images?.[0]?.image_url || "/placeholder.svg"`: the first image's URL
      unless it is missing or empty. A car is never shown without an image. */
  function PrimaryImage(images: Option<seq<ImageRow>>): (r: string)
    ensures r != ""
    ensures images.Some? && |images.value| > 0 && images.value[0].imageUrl != "" ==>
              r == images.value[0].imageUrl
    ensures images.None? || |images.value| == 0 || images.value[0].imageUrl == "" ==>
              r == Placeholder
  {
    if images.Some? && |images.value| > 0 then
      OrElse(Some(images.value[0].imageUrl), Placeholder)
    else
      Placeholder
  }
}
